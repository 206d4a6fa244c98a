/** Least-recently-collected target selection over many runs. */
module TargetSelector {
  import opened Lists

  /** When a target was last collected, and when it was created. */
  datatype Slot = Slot(last: Option<int>, created: int)

  /** The active targets by id. */
  type Board = map<int, Slot>

  /** Strictly earlier in ORDER BY last_collected_at ASC NULLS FIRST, created_at. */
  predicate Ahead(a: Slot, b: Slot) {
    if a.last == b.last then a.created < b.created
    else a.last.None? || (b.last.Some? && a.last.value < b.last.value)
  }

  /** Any selection the query may return: `limit` targets, none of them behind an unselected one. */
  ghost predicate IsSelection(board: Board, limit: nat, selected: set<int>) {
    && selected <= board.Keys
    && |selected| == (if |board| <= limit then |board| else limit)
    && forall s, t :: s in selected && t in board.Keys - selected ==> !Ahead(board[t], board[s])
  }

  /** The collected targets get a timestamp newer than every earlier one; the rest keep theirs. */
  ghost predicate Collected(board: Board, collected: set<int>, next: Board) {
    && next.Keys == board.Keys
    && (forall t :: t in board && t !in collected ==> next[t] == board[t])
    && (forall c, t :: c in collected && c in board && t in board && board[t].last.Some? ==>
          next[c].last.Some? && next[c].last.value > board[t].last.value)
    && (forall c :: c in collected && c in board ==> next[c].last.Some? && next[c].created == board[c].created)
  }

  datatype Round = Round(board: Board, selected: set<int>, collected: set<int>)

  /** A history of runs: each collects the selected targets outside `blocked`, and possibly some blocked ones. */
  ghost predicate IsHistory(rounds: seq<Round>, limit: nat, blocked: set<int>) {
    && (forall i :: 0 <= i < |rounds| ==>
          && IsSelection(rounds[i].board, limit, rounds[i].selected)
          && rounds[i].selected - blocked <= rounds[i].collected <= rounds[i].selected)
    && (forall i :: 0 <= i < |rounds| - 1 ==> Collected(rounds[i].board, rounds[i].collected, rounds[i + 1].board))
  }

  /** Unblocked targets other than `t` that may still be chosen before it. */
  ghost function Rivals(board: Board, blocked: set<int>, t: int): set<int>
    requires t in board
  {
    set u | u in board.Keys && u != t && u !in blocked && !Ahead(board[t], board[u])
  }

  /** Blocked targets that may be chosen before `t`. */
  ghost function Obstacles(board: Board, blocked: set<int>, t: int): set<int>
    requires t in board
  {
    set u | u in board.Keys && u != t && u in blocked && !Ahead(board[t], board[u])
  }

  lemma SelectedMayPrecede(round: Round, limit: nat, blocked: set<int>, t: int)
    requires IsSelection(round.board, limit, round.selected)
    requires t in round.board && t !in round.selected
    ensures round.selected <= Rivals(round.board, blocked, t) + Obstacles(round.board, blocked, t)
  {
    assert t in round.board.Keys - round.selected;
    forall u | u in round.selected
      ensures u in Rivals(round.board, blocked, t) + Obstacles(round.board, blocked, t)
    {
      assert !Ahead(round.board[t], round.board[u]);
    }
  }

  /** While `t` waits, each run takes at least `limit - obstacles` rivals out of its way for good. */
  lemma WaitingShrinksRivals(round: Round, next: Board, limit: nat, blocked: set<int>, t: int)
    requires IsSelection(round.board, limit, round.selected)
    requires round.selected - blocked <= round.collected <= round.selected
    requires Collected(round.board, round.collected, next)
    requires t in round.board && t !in round.selected
    ensures next[t] == round.board[t]
    ensures |Rivals(next, blocked, t)| + limit <= |Rivals(round.board, blocked, t)| + |Obstacles(round.board, blocked,
        t)|
    ensures |Obstacles(next, blocked, t)| <= |Obstacles(round.board, blocked, t)|
  {
    var board, s := round.board, round.selected;
    var rivals, obstacles := Rivals(board, blocked, t), Obstacles(board, blocked, t);
    if |s| == |board| {
      SubsetSize(s, board.Keys);
    }
    assert |s| == limit;
    SelectedMayPrecede(round, limit, blocked, t);
    var gone := s - blocked;
    SubsetSize(s * blocked, obstacles);
    assert s == gone + s * blocked;
    assert |s| == |gone| + |s * blocked|;
    assert gone <= rivals;
    forall u | u in round.collected
      ensures Ahead(next[t], next[u])
    {
      assert u in board;
    }
    assert Rivals(next, blocked, t) <= rivals - gone;
    SubsetSize(Rivals(next, blocked, t), rivals - gone);
    assert |rivals - gone| == |rivals| - |gone|;
    assert Obstacles(next, blocked, t) <= obstacles;
    SubsetSize(Obstacles(next, blocked, t), obstacles);
  }

  /** Over k runs without `t`, the rivals fall by k*(limit - obstacles). */
  lemma {:induction false} RivalsAfter(rounds: seq<Round>, limit: nat, blocked: set<int>, t: int, k: nat)
    requires IsHistory(rounds, limit, blocked) && k < |rounds|
    requires t in rounds[0].board
    requires forall i :: 0 <= i < k ==> t !in rounds[i].selected
    requires |Obstacles(rounds[0].board, blocked, t)| <= limit
    ensures t in rounds[k].board && rounds[k].board[t] == rounds[0].board[t]
    ensures |Obstacles(rounds[k].board, blocked, t)| <= |Obstacles(rounds[0].board, blocked, t)|
    ensures |Rivals(rounds[k].board, blocked, t)| + k * (limit - |Obstacles(rounds[0].board, blocked, t)|)
         <= |Rivals(rounds[0].board, blocked, t)|
  {
    if k > 0 {
      RivalsAfter(rounds, limit, blocked, t, k - 1);
      WaitingShrinksRivals(rounds[k - 1], rounds[k].board, limit, blocked, t);
      var gain := limit - |Obstacles(rounds[0].board, blocked, t)|;
      assert k * gain == (k - 1) * gain + gain;
    }
  }

  /** A target that is not blocked is selected within any k consecutive runs for which
      k*(limit - obstacles) exceeds the number of rivals ahead of it. */
  lemma NoStarvation(rounds: seq<Round>, limit: nat, blocked: set<int>, t: int)
    requires IsHistory(rounds, limit, blocked) && |rounds| > 0
    requires t in rounds[0].board
    requires |Obstacles(rounds[0].board, blocked, t)| < limit
    requires |rounds| * (limit - |Obstacles(rounds[0].board, blocked, t)|) > |Rivals(rounds[0].board, blocked, t)|
    ensures exists i :: 0 <= i < |rounds| && t in rounds[i].selected
  {
    var k := |rounds| - 1;
    var gain := limit - |Obstacles(rounds[0].board, blocked, t)|;
    assert |rounds| * gain == k * gain + gain;
    if forall i :: 0 <= i < |rounds| ==> t !in rounds[i].selected {
      RivalsAfter(rounds, limit, blocked, t, k);
      LastSelectionFull(rounds[k], limit, blocked, t);
      assert false;
    }
  }

  /** An unselected target has at least `limit` others that may precede it. */
  lemma LastSelectionFull(round: Round, limit: nat, blocked: set<int>, t: int)
    requires IsSelection(round.board, limit, round.selected)
    requires t in round.board && t !in round.selected
    ensures |Rivals(round.board, blocked, t)| + |Obstacles(round.board, blocked, t)| >= limit
  {
    var board, s := round.board, round.selected;
    if |s| == |board| {
      SubsetSize(s, board.Keys);
    }
    var ahead := Rivals(board, blocked, t) + Obstacles(board, blocked, t);
    SelectedMayPrecede(round, limit, blocked, t);
    SubsetSize(s, ahead);
    assert |ahead| == |Rivals(board, blocked, t)| + |Obstacles(board, blocked, t)|;
  }

  /** When every selected target is collected, each of N targets is selected within ceil(N/limit) runs. */
  lemma EveryTargetServed(rounds: seq<Round>, limit: nat, t: int)
    requires IsHistory(rounds, limit, {}) && limit >= 1 && |rounds| > 0
    requires t in rounds[0].board
    requires |rounds| == (|rounds[0].board| + limit - 1) / limit
    ensures exists i :: 0 <= i < |rounds| && t in rounds[i].selected
  {
    var board := rounds[0].board;
    assert Obstacles(board, {}, t) == {};
    assert Rivals(board, {}, t) <= board.Keys - {t};
    SubsetSize(Rivals(board, {}, t), board.Keys - {t});
    assert |board.Keys - {t}| == |board| - 1;
    CeilingCovers(|board|, limit, |rounds|);
    NoStarvation(rounds, limit, {}, t);
  }

  lemma CeilingCovers(n: nat, d: nat, q: nat)
    requires d >= 1 && q == (n + d - 1) / d
    ensures q * d >= n
  {
    var r := (n + d - 1) % d;
    assert n + d - 1 == q * d + r;
  }

  lemma AheadIsSelected(board: Board, limit: nat, selected: set<int>, t: int, b: int)
    requires IsSelection(board, limit, selected) && t in selected
    requires b in board && Ahead(board[b], board[t])
    ensures b in selected
  {
  }

  /** Targets that are strictly ahead of `t` fill the selection before it. */
  lemma StuckFillSelection(board: Board, limit: nat, selected: set<int>, stuck: set<int>, t: int)
    requires IsSelection(board, limit, selected)
    requires t in board && stuck <= board.Keys && |stuck| >= limit
    requires forall b :: b in stuck ==> Ahead(board[b], board[t])
    ensures t !in selected
  {
    if t in selected {
      forall b | b in stuck
        ensures b in selected
      {
        AheadIsSelected(board, limit, selected, t, b);
      }
      SubsetSize(stuck + {t}, selected);
    }
  }

  lemma StuckStayAhead(round: Round, next: Board, stuck: set<int>, t: int)
    requires Collected(round.board, round.collected, next)
    requires t in round.board && t !in round.collected
    requires stuck <= round.board.Keys && round.collected !! stuck
    requires forall b :: b in stuck ==> Ahead(round.board[b], round.board[t])
    ensures t in next && stuck <= next.Keys
    ensures forall b :: b in stuck ==> Ahead(next[b], next[t])
  {
  }

  /** If `limit` targets that are never collected are strictly ahead of `t`, it is never selected, however many runs
      follow. */
  lemma {:induction false} BlockedTargetsStarve(
    rounds: seq<Round>, limit: nat, blocked: set<int>, stuck: set<int>, t: int, k: nat)
    requires IsHistory(rounds, limit, blocked) && k < |rounds|
    requires forall i :: 0 <= i < |rounds| ==> rounds[i].collected !! stuck
    requires t in rounds[0].board && stuck <= rounds[0].board.Keys && |stuck| >= limit
    requires forall b :: b in stuck ==> Ahead(rounds[0].board[b], rounds[0].board[t])
    ensures t in rounds[k].board && stuck <= rounds[k].board.Keys
    ensures forall b :: b in stuck ==> Ahead(rounds[k].board[b], rounds[k].board[t])
    ensures t !in rounds[k].selected
  {
    if k > 0 {
      BlockedTargetsStarve(rounds, limit, blocked, stuck, t, k - 1);
      StuckStayAhead(rounds[k - 1], rounds[k].board, stuck, t);
    }
    StuckFillSelection(rounds[k].board, limit, rounds[k].selected, stuck, t);
  }

  /** With blocked targets that are never collected and never tie with `t`, a long enough history serves `t`
      exactly when fewer than `limit` of them are ahead of it. */
  lemma ServedExactlyWhen(rounds: seq<Round>, limit: nat, blocked: set<int>, t: int)
    requires IsHistory(rounds, limit, blocked)
    requires forall i :: 0 <= i < |rounds| ==> rounds[i].collected !! blocked
    requires |rounds| > 0 && t in rounds[0].board && t !in blocked
    requires |rounds| > |Rivals(rounds[0].board, blocked, t)|
    requires forall b :: b in blocked && b in rounds[0].board ==>
          Ahead(rounds[0].board[b], rounds[0].board[t]) || Ahead(rounds[0].board[t], rounds[0].board[b])
    ensures (exists i :: 0 <= i < |rounds| && t in rounds[i].selected)
      <==> |Obstacles(rounds[0].board, blocked, t)| < limit
  {
    var obstacles := Obstacles(rounds[0].board, blocked, t);
    if |obstacles| < limit {
      var gain := limit - |obstacles|;
      AtLeast(|rounds|, gain);
      NoStarvation(rounds, limit, blocked, t);
    } else {
      forall k | 0 <= k < |rounds|
        ensures t !in rounds[k].selected
      {
        BlockedTargetsStarve(rounds, limit, blocked, obstacles, t, k);
      }
    }
  }

  lemma AtLeast(n: nat, gain: int)
    requires gain >= 1
    ensures n * gain >= n
  {
  }
}
