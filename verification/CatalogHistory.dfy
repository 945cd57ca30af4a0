/** What the catalog's queries say about the real history of the pointer: `rollback_candidates`,
    `previous_generation`, `rollback_to_generation` and `list_documents` (catalog.py). */
module CatalogHistory {
  import opened Common
  import opened Digest
  import opened Records
  import opened Catalog
  import opened CatalogInvariants

  // ----- queries

  function SortStamp(g: Generation): int {
    if g.publishedAt.Some? then g.publishedAt.value else g.createdAt
  }

  /** `ORDER BY COALESCE(published_at, created_at) DESC, generation_id DESC`. */
  predicate Newer(generations: map<string, Generation>, a: string, b: string)
    requires a in generations && b in generations
  {
    var x, y := SortStamp(generations[a]), SortStamp(generations[b]);
    x > y || (x == y && StrLess(b, a))
  }

  predicate IsAvailable(generations: map<string, Generation>, kbId: string, g: string) {
    g in generations && generations[g].kbId == kbId && generations[g].state == Available
  }

  /** `rollback_candidates`. */
  ghost predicate IsCandidates(generations: map<string, Generation>, kbId: string, r: seq<string>) {
    && (forall g :: g in r <==> IsAvailable(generations, kbId, g))
    && forall i, j | 0 <= i < j < |r| ::
         IsAvailable(generations, kbId, r[i]) && IsAvailable(generations, kbId, r[j]) && Newer(generations, r[i], r[j])
  }

  /** `previous_generation`: the newest candidate. */
  ghost predicate IsPrevious(generations: map<string, Generation>, kbId: string, p: Option<string>) {
    match p
    case None => forall g :: !IsAvailable(generations, kbId, g)
    case Some(h) =>
      && IsAvailable(generations, kbId, h)
      && forall g | IsAvailable(generations, kbId, g) && g != h :: Newer(generations, h, g)
  }

  function First(r: seq<string>): Option<string> {
    if r == [] then None else Some(r[0])
  }

  lemma FirstIsPrevious(generations: map<string, Generation>, kbId: string, r: seq<string>)
    requires IsCandidates(generations, kbId, r)
    ensures IsPrevious(generations, kbId, First(r))
  {
    if r != [] {
      forall g | IsAvailable(generations, kbId, g) && g != r[0] ensures Newer(generations, r[0], g) {
        assert g in r;
        var j :| 0 <= j < |r| && r[j] == g;
        assert 0 < j;
      }
    } else {
      forall g ensures !IsAvailable(generations, kbId, g) { assert g !in r; }
    }
  }

  lemma PreviousUnique(generations: map<string, Generation>, kbId: string, p: Option<string>, q: Option<string>)
    requires IsPrevious(generations, kbId, p) && IsPrevious(generations, kbId, q)
    ensures p == q
  {
    if p.Some? && q.Some? { StrTrichotomy(p.value, q.value); }
  }

  // ----- the timestamp query against the real history

  ghost predicate Steady(moves: seq<Move>) {
    forall i, j | 0 <= i < j < |moves| :: moves[i].stamp <= moves[j].stamp
  }

  ghost predicate StrictClock(moves: seq<Move>) {
    forall i, j | 0 <= i < j < |moves| :: moves[i].stamp < moves[j].stamp
  }

  /** The generation that was current just before the latest pointer move. */
  function Predecessor(moves: seq<Move>): Option<string> {
    if |moves| < 2 then None else Some(moves[|moves| - 2].generationId)
  }

  lemma {:induction false} LastStampAt(moves: seq<Move>, g: string) returns (i: nat)
    requires LastStamp(moves, g).Some?
    ensures i < |moves| && moves[i].generationId == g && LastStamp(moves, g) == Some(moves[i].stamp)
    ensures forall j | i < j < |moves| :: moves[j].generationId != g
  {
    var n := |moves| - 1;
    if moves[n].generationId == g {
      i := n;
    } else {
      i := LastStampAt(moves[..n], g);
      assert forall j | i < j < n :: moves[..n][j].generationId != g;
    }
  }

  lemma CandidateAt(generations: Generations, current: map<string, string>, moves: seq<Move>, kbId: string, g: string)
    returns (i: nat)
    requires Agrees(generations, current, moves, kbId) && Pointed(generations, current)
    requires IsAvailable(generations, kbId, g)
    ensures i < |moves| - 1 && moves[i].generationId == g && SortStamp(generations[g]) == moves[i].stamp
    ensures forall j | i < j < |moves| :: moves[j].generationId != g
  {
    assert StampRemembered(moves, g, generations[g]);
    i := LastStampAt(moves, g);
    assert generations[g].state == Published <==> PointedAt(g, generations[g], current);
  }

  lemma PredecessorAvailable(generations: Generations, current: map<string, string>, moves: seq<Move>, kbId: string)
    requires Agrees(generations, current, moves, kbId) && Pointed(generations, current) && |moves| >= 2
    ensures IsAvailable(generations, kbId, Predecessor(moves).value)
    ensures SortStamp(generations[Predecessor(moves).value]) == moves[|moves| - 2].stamp
  {
    var n := |moves|;
    var p := moves[n - 2].generationId;
    assert moves[n - 2].generationId != moves[n - 2 + 1].generationId;
    assert MoveSucceeded(generations, kbId, moves[n - 2]);
    assert generations[p].state == Published <==> PointedAt(p, generations[p], current);
    var i := CandidateAt(generations, current, moves, kbId, p);
    assert i == n - 2;
  }

  lemma HistoryHolds(s: State, kbId: string)
    requires Reachable(s)
    ensures Agrees(s.generations, s.current, KbHistory(s.history, kbId), kbId) && Pointed(s.generations, s.current)
  {
    ReachableHolds(s);
    assert Remembers(s, kbId);
  }

  /** A generation the pointer left earlier, and has not returned to, comes before the one it left
      last by clock reading, then by ID. */
  predicate Overtakes(moves: seq<Move>, i: nat)
    requires i + 2 < |moves|
  {
    var m, last := moves[i], moves[|moves| - 2];
    && (forall j | i < j < |moves| :: moves[j].generationId != m.generationId)
    && (m.stamp > last.stamp || (m.stamp == last.stamp && StrLess(last.generationId, m.generationId)))
  }

  ghost predicate Overtaken(moves: seq<Move>) {
    exists i | 0 <= i < |moves| - 2 :: Overtakes(moves, i)
  }

  lemma OvertakerNewer(s: State, kbId: string, i: nat)
    requires Reachable(s) && i + 2 < |KbHistory(s.history, kbId)| && Overtakes(KbHistory(s.history, kbId), i)
    ensures var moves := KbHistory(s.history, kbId);
      var g, last := moves[i].generationId, moves[|moves| - 2].generationId;
      && IsAvailable(s.generations, kbId, g) && IsAvailable(s.generations, kbId, last)
      && g != last && Newer(s.generations, g, last)
  {
    var moves := KbHistory(s.history, kbId);
    var g := moves[i].generationId;
    HistoryHolds(s, kbId);
    PredecessorAvailable(s.generations, s.current, moves, kbId);
    assert MoveSucceeded(s.generations, kbId, moves[i]);
    assert moves[|moves| - 1].generationId != g;
    assert s.generations[g].state == Published <==> PointedAt(g, s.generations[g], s.current);
    var j := CandidateAt(s.generations, s.current, moves, kbId, g);
    assert j == i;
  }

  lemma NewerOvertakes(s: State, kbId: string, g: string)
    requires Reachable(s) && IsAvailable(s.generations, kbId, g)
    requires |KbHistory(s.history, kbId)| >= 2 ==> g != Predecessor(KbHistory(s.history, kbId)).value
    ensures var moves := KbHistory(s.history, kbId);
      && |moves| >= 2 && IsAvailable(s.generations, kbId, Predecessor(moves).value)
      && (Newer(s.generations, Predecessor(moves).value, g) || Overtaken(moves))
  {
    var moves := KbHistory(s.history, kbId);
    HistoryHolds(s, kbId);
    var i := CandidateAt(s.generations, s.current, moves, kbId, g);
    PredecessorAvailable(s.generations, s.current, moves, kbId);
    var last := Predecessor(moves).value;
    StrTrichotomy(g, last);
    if !Newer(s.generations, last, g) { assert Overtakes(moves, i); }
  }

  /** For every clock: the query names the generation the pointer last left exactly when no generation
      left earlier carries a later timestamp, or the same one and a larger ID. */
  lemma PreviousExact(s: State, kbId: string, p: Option<string>)
    requires Reachable(s)
    ensures var moves := KbHistory(s.history, kbId);
      IsPrevious(s.generations, kbId, Predecessor(moves)) <==> !Overtaken(moves)
    ensures IsPrevious(s.generations, kbId, p) ==>
      (p == Predecessor(KbHistory(s.history, kbId)) <==> !Overtaken(KbHistory(s.history, kbId)))
  {
    var moves := KbHistory(s.history, kbId);
    var last := Predecessor(moves);
    if Overtaken(moves) {
      var i :| 0 <= i < |moves| - 2 && Overtakes(moves, i);
      OvertakerNewer(s, kbId, i);
      StrTrichotomy(moves[i].generationId, last.value);
    } else {
      if last.Some? {
        HistoryHolds(s, kbId);
        PredecessorAvailable(s.generations, s.current, moves, kbId);
      }
      forall g | IsAvailable(s.generations, kbId, g) && Some(g) != last
        ensures last.Some? && Newer(s.generations, last.value, g)
      {
        NewerOvertakes(s, kbId, g);
      }
      if IsPrevious(s.generations, kbId, p) { PreviousUnique(s.generations, kbId, p, last); }
    }
  }

  /** An AVAILABLE generation that was published at the very same instant and has a larger ID. */
  predicate OutranksAt(generations: map<string, Generation>, kbId: string, p: string, h: string)
    requires p in generations
  {
    && IsAvailable(generations, kbId, h) && StrLess(p, h)
    && SortStamp(generations[h]) == SortStamp(generations[p])
  }

  ghost predicate Outranked(generations: map<string, Generation>, kbId: string, p: string)
    requires p in generations
  {
    exists h :: OutranksAt(generations, kbId, p, h)
  }

  lemma OvertakenOutranks(s: State, kbId: string)
    requires Reachable(s) && Steady(KbHistory(s.history, kbId)) && Overtaken(KbHistory(s.history, kbId))
    ensures var last := Predecessor(KbHistory(s.history, kbId));
      last.Some? && last.value in s.generations && Outranked(s.generations, kbId, last.value)
  {
    var moves := KbHistory(s.history, kbId);
    var i :| 0 <= i < |moves| - 2 && Overtakes(moves, i);
    HistoryHolds(s, kbId);
    PredecessorAvailable(s.generations, s.current, moves, kbId);
    OvertakerNewer(s, kbId, i);
    var j := CandidateAt(s.generations, s.current, moves, kbId, moves[i].generationId);
    assert j == i && moves[i].stamp <= moves[|moves| - 2].stamp;
    assert OutranksAt(s.generations, kbId, Predecessor(moves).value, moves[i].generationId);
  }

  lemma OutrankedOvertakes(s: State, kbId: string)
    requires Reachable(s) && |KbHistory(s.history, kbId)| >= 2
    ensures var last := Predecessor(KbHistory(s.history, kbId)).value;
      last in s.generations && (Outranked(s.generations, kbId, last) ==> Overtaken(KbHistory(s.history, kbId)))
  {
    var moves := KbHistory(s.history, kbId);
    HistoryHolds(s, kbId);
    PredecessorAvailable(s.generations, s.current, moves, kbId);
    if h :| OutranksAt(s.generations, kbId, Predecessor(moves).value, h) {
      StrTrichotomy(Predecessor(moves).value, h);
      NewerOvertakes(s, kbId, h);
    }
  }

  /** With a clock that never runs backwards, only a shared timestamp makes the query miss. */
  lemma PreviousSteady(s: State, kbId: string, p: Option<string>)
    requires Reachable(s) && Steady(KbHistory(s.history, kbId)) && IsPrevious(s.generations, kbId, p)
    ensures var last := Predecessor(KbHistory(s.history, kbId));
      if last.None? then p == None
      else last.value in s.generations && (p == last <==> !Outranked(s.generations, kbId, last.value))
  {
    var moves := KbHistory(s.history, kbId);
    PreviousExact(s, kbId, p);
    if |moves| >= 2 {
      OutrankedOvertakes(s, kbId);
      if Overtaken(moves) { OvertakenOutranks(s, kbId); }
    }
  }

  lemma StrictNotOvertaken(moves: seq<Move>)
    requires StrictClock(moves)
    ensures !Overtaken(moves)
  {
    assert forall i | 0 <= i < |moves| - 2 :: moves[i].stamp < moves[|moves| - 2].stamp;
  }

  /** With a strictly increasing clock the timestamp query is the real predecessor. */
  lemma PreviousMatchesHistory(s: State, kbId: string, p: Option<string>)
    requires Reachable(s) && StrictClock(KbHistory(s.history, kbId))
    ensures IsPrevious(s.generations, kbId, p) <==> p == Predecessor(KbHistory(s.history, kbId))
  {
    var moves := KbHistory(s.history, kbId);
    PreviousExact(s, kbId, p);
    StrictNotOvertaken(moves);
  }

  /** A new generation begun, staged and committed. */
  function Publication(s: State, runId: string, g: string, kbId: string, pipeline: Pipeline, t: int): State {
    Step(Step(Step(s, BeginOp(runId, g, kbId, pipeline), t), StageOp(runId), t), CommitOp(runId), t)
  }

  lemma PublicationReachable(s: State, runId: string, g: string, kbId: string, pipeline: Pipeline, t: int)
    requires Reachable(s)
    ensures Reachable(Publication(s, runId, g, kbId, pipeline, t))
  {
    var begun := Step(s, BeginOp(runId, g, kbId, pipeline), t);
    ReachableStep(s, BeginOp(runId, g, kbId, pipeline), t);
    ReachableStep(begun, StageOp(runId), t);
    ReachableStep(Step(begun, StageOp(runId), t), CommitOp(runId), t);
  }

  /** The state with a new run and generation added, in given states. */
  function WithRun(s: State, runId: string, g: string, row: Generation, state: RunState): State {
    s.(generations := s.generations[g := row],
       runs := s.runs[runId := Run(g, row.kbId, state, PipelineDigest(row.pipeline))])
  }

  lemma StagedTables(s: State, runId: string, g: string, row: Generation)
    requires row.state == Building
    ensures Stage(WithRun(s, runId, g, row, Running), runId)
         == Done(WithRun(s, runId, g, row.(state := Staged), RunStaged), Some(g))
  {
    var begun := WithRun(s, runId, g, row, Running);
    var staged := WithRun(s, runId, g, row.(state := Staged), RunStaged);
    assert begun.generations[g := row.(state := Staged)] == staged.generations;
    assert begun.runs[runId := begun.runs[runId].(state := RunStaged)] == staged.runs;
  }

  lemma CommittedTables(s: State, runId: string, g: string, row: Generation, t: int)
    requires g !in s.generations && (row.kbId in s.current ==> s.current[row.kbId] in s.generations)
    ensures var staged := WithRun(s, runId, g, row, RunStaged);
      var o := Commit(staged, runId, t);
      && o.Done? && o.state.current == s.current[row.kbId := g] && o.state.runs.Keys == s.runs.Keys + {runId}
      && o.state.history == s.history + [Move(row.kbId, g, t, true)]
      && o.state.generations
         == (if row.kbId in s.current then SetState(s.generations, s.current[row.kbId], Available) else s.generations)
            [g := row.(state := Published, publishedAt := Some(t))]
  {
  }

  lemma PublicationTables(s: State, runId: string, g: string, kbId: string, pipeline: Pipeline, t: int)
    requires g !in s.generations && runId !in s.runs
    requires kbId in s.current ==> s.current[kbId] in s.generations
    ensures var u := Publication(s, runId, g, kbId, pipeline, t);
      && u.current == s.current[kbId := g] && u.runs.Keys == s.runs.Keys + {runId}
      && u.history == s.history + [Move(kbId, g, t, true)]
      && u.generations
         == (if kbId in s.current then SetState(s.generations, s.current[kbId], Available) else s.generations)
            [g := Generation(kbId, Published, pipeline, t, Some(t))]
  {
    var row := Generation(kbId, Building, pipeline, t, None);
    StagedTables(s, runId, g, row);
    CommittedTables(s, runId, g, row.(state := Staged), t);
  }

  /** Three generations published in turn, at the given clock readings. */
  function Publications(kb: string, ids: seq<string>, stamps: seq<int>, pipeline: Pipeline, runs: seq<string>): State
    requires |ids| == 3 && |stamps| == 3 && |runs| == 3
  {
    var one := Publication(EMPTY, runs[0], ids[0], kb, pipeline, stamps[0]);
    var two := Publication(one, runs[1], ids[1], kb, pipeline, stamps[1]);
    Publication(two, runs[2], ids[2], kb, pipeline, stamps[2])
  }

  function Published3(kb: string, ids: seq<string>, stamps: seq<int>, pipeline: Pipeline): map<string, Generation>
    requires |ids| == 3 && |stamps| == 3
  {
    map[ids[0] := Generation(kb, Available, pipeline, stamps[0], Some(stamps[0])),
        ids[1] := Generation(kb, Available, pipeline, stamps[1], Some(stamps[1])),
        ids[2] := Generation(kb, Published, pipeline, stamps[2], Some(stamps[2]))]
  }

  function Moves3(kb: string, ids: seq<string>, stamps: seq<int>): seq<Move>
    requires |ids| == 3 && |stamps| == 3
  {
    [Move(kb, ids[0], stamps[0], true), Move(kb, ids[1], stamps[1], true), Move(kb, ids[2], stamps[2], true)]
  }

  lemma PublicationsTables(kb: string, ids: seq<string>, stamps: seq<int>, pipeline: Pipeline, runs: seq<string>)
    requires |ids| == 3 && |stamps| == 3 && |runs| == 3 && Distinct(ids) && Distinct(runs)
    ensures var s := Publications(kb, ids, stamps, pipeline, runs);
      s.history == Moves3(kb, ids, stamps) && s.generations == Published3(kb, ids, stamps, pipeline)
  {
    var one := Publication(EMPTY, runs[0], ids[0], kb, pipeline, stamps[0]);
    var two := Publication(one, runs[1], ids[1], kb, pipeline, stamps[1]);
    FirstTwo(kb, ids, stamps, pipeline, runs);
    PublicationTables(two, runs[2], ids[2], kb, pipeline, stamps[2]);
  }

  lemma FirstTwo(kb: string, ids: seq<string>, stamps: seq<int>, pipeline: Pipeline, runs: seq<string>)
    requires |ids| == 3 && |stamps| == 3 && |runs| == 3 && Distinct(ids) && Distinct(runs)
    ensures var one := Publication(EMPTY, runs[0], ids[0], kb, pipeline, stamps[0]);
      var two := Publication(one, runs[1], ids[1], kb, pipeline, stamps[1]);
      && two.history == Moves3(kb, ids, stamps)[..2] && two.current == map[kb := ids[1]] &&
        two.runs.Keys == {runs[0], runs[1]}
      && two.generations == map[ids[0] := Generation(kb, Available, pipeline, stamps[0], Some(stamps[0])),
                                ids[1] := Generation(kb, Published, pipeline, stamps[1], Some(stamps[1]))]
  {
    var one := Publication(EMPTY, runs[0], ids[0], kb, pipeline, stamps[0]);
    PublicationTables(EMPTY, runs[0], ids[0], kb, pipeline, stamps[0]);
    PublicationTables(one, runs[1], ids[1], kb, pipeline, stamps[1]);
  }

  lemma PublicationsReachable(kb: string, ids: seq<string>, stamps: seq<int>, pipeline: Pipeline, runs: seq<string>)
    requires |ids| == 3 && |stamps| == 3 && |runs| == 3
    ensures Reachable(Publications(kb, ids, stamps, pipeline, runs))
  {
    assert Reaches([], EMPTY);
    var one := Publication(EMPTY, runs[0], ids[0], kb, pipeline, stamps[0]);
    var two := Publication(one, runs[1], ids[1], kb, pipeline, stamps[1]);
    PublicationReachable(EMPTY, runs[0], ids[0], kb, pipeline, stamps[0]);
    PublicationReachable(one, runs[1], ids[1], kb, pipeline, stamps[1]);
    PublicationReachable(two, runs[2], ids[2], kb, pipeline, stamps[2]);
  }

  /** After three publications whose first timestamp outranks the second, the query names the first
      generation while the pointer came from the second. */
  lemma PreviousMisses(
    kb: string, ids: seq<string>, stamps: seq<int>, pipeline: Pipeline, runs: seq<string>) returns (s: State)
    requires |ids| == 3 && |stamps| == 3 && |runs| == 3 && Distinct(ids) && Distinct(runs)
    requires stamps[0] > stamps[1] || (stamps[0] == stamps[1] && StrLess(ids[1], ids[0]))
    ensures Reachable(s) && KbHistory(s.history, kb) == Moves3(kb, ids, stamps)
    ensures s.generations == Published3(kb, ids, stamps, pipeline)
    ensures Predecessor(KbHistory(s.history, kb)) == Some(ids[1]) && IsPrevious(s.generations, kb, Some(ids[0]))
  {
    s := Publications(kb, ids, stamps, pipeline, runs);
    PublicationsReachable(kb, ids, stamps, pipeline, runs);
    PublicationsTables(kb, ids, stamps, pipeline, runs);
    FilterAll(Moves3(kb, ids, stamps), OfKb(kb));
    FirstNewest(kb, ids, stamps, pipeline);
  }

  lemma FirstNewest(kb: string, ids: seq<string>, stamps: seq<int>, pipeline: Pipeline)
    requires |ids| == 3 && |stamps| == 3 && Distinct(ids)
    requires stamps[0] > stamps[1] || (stamps[0] == stamps[1] && StrLess(ids[1], ids[0]))
    ensures IsPrevious(Published3(kb, ids, stamps, pipeline), kb, Some(ids[0]))
  {
    assert ids[0] != ids[1] && ids[0] != ids[2] && ids[1] != ids[2];
  }

  /** Two publications within one clock tick: the query names `b` while the pointer came from `a`. */
  lemma PreviousTie(
    kb: string, a: string, b: string, c: string, pipeline: Pipeline, runs: seq<string>) returns (s: State)
    requires StrLess(a, b) && a != c && b != c && |runs| == 3 && Distinct(runs)
    ensures Reachable(s) && Steady(KbHistory(s.history, kb))
    ensures Predecessor(KbHistory(s.history, kb)) == Some(a) && IsPrevious(s.generations, kb, Some(b))
  {
    StrTrichotomy(a, b);
    s := PreviousMisses(kb, [b, a, c], [5, 5, 6], pipeline, runs);
  }

  /** The clock steps back between two publications: the query names `a` while the pointer came from
      `b`, though no two timestamps are equal. */
  lemma PreviousBackwards(
    kb: string, a: string, b: string, c: string, pipeline: Pipeline, runs: seq<string>) returns (s: State)
    requires a != b && a != c && b != c && |runs| == 3 && Distinct(runs)
    ensures Reachable(s) && b in s.generations && !Outranked(s.generations, kb, b)
    ensures Predecessor(KbHistory(s.history, kb)) == Some(b) && IsPrevious(s.generations, kb, Some(a))
  {
    s := PreviousMisses(kb, [a, b, c], [10, 5, 6], pipeline, runs);
    StrTrichotomy(b, b);
  }

  // ----- rolling back

  lemma MoveHistory(s: State, kbId: string, g: string, t: int, committed: bool)
    ensures KbHistory(MovePointer(s, kbId, g, t, committed).history, kbId)
         == KbHistory(s.history, kbId) + [Move(kbId, g, t, committed)]
  {
    KbHistorySnoc(s.history, Move(kbId, g, t, committed), kbId);
  }

  lemma CandidateNotCurrent(s: State, kbId: string, p: string)
    requires Reachable(s) && IsAvailable(s.generations, kbId, p)
    ensures CurrentOf(s, kbId).Some? && CurrentOf(s, kbId) != Some(p)
    ensures Rollback(s, kbId, p, 0).Done?
  {
    HistoryHolds(s, kbId);
    var i := CandidateAt(s.generations, s.current, KbHistory(s.history, kbId), kbId, p);
    assert s.generations[p].state == Published <==> PointedAt(p, s.generations[p], s.current);
  }

  lemma LatestIsCurrent(s: State, kbId: string)
    requires Reachable(s)
    ensures var moves := KbHistory(s.history, kbId);
      CurrentOf(s, kbId) == if moves == [] then None else Some(moves[|moves| - 1].generationId)
  {
    HistoryHolds(s, kbId);
  }

  /** A rollback to a candidate makes the generation it left the next rollback target, exactly when no
      earlier one overtakes it. */
  lemma RollbackSwaps(s: State, kbId: string, p: string, t: int)
    requires Reachable(s) && IsAvailable(s.generations, kbId, p)
    ensures var o := Rollback(s, kbId, p, t);
      && o == Done(MovePointer(s, kbId, p, t, false), CurrentOf(s, kbId))
      && CurrentOf(s, kbId).Some? && CurrentOf(s, kbId) != Some(p) && Reachable(o.state)
      && IsAvailable(o.state.generations, kbId, CurrentOf(s, kbId).value)
      && KbHistory(o.state.history, kbId) == KbHistory(s.history, kbId) + [Move(kbId, p, t, false)]
      && (IsPrevious(o.state.generations, kbId, CurrentOf(s, kbId)) <==> !Overtaken(KbHistory(o.state.history, kbId)))
  {
    CandidateNotCurrent(s, kbId, p);
    LatestIsCurrent(s, kbId);
    CurrentPublished(s, kbId);
    ReachableStep(s, RollbackOp(kbId, p), t);
    MoveHistory(s, kbId, p, t, false);
    PreviousExact(MovePointer(s, kbId, p, t, false), kbId, CurrentOf(s, kbId));
  }

  lemma SwapTarget(s: State, kbId: string, p: string, t: int, q: Option<string>)
    requires Reachable(s) && IsAvailable(s.generations, kbId, p)
    requires IsPrevious(MovePointer(s, kbId, p, t, false).generations, kbId, q)
    ensures var once := MovePointer(s, kbId, p, t, false);
      && Rollback(s, kbId, p, t) == Done(once, CurrentOf(s, kbId)) && Reachable(once)
      && q.Some? && IsAvailable(once.generations, kbId, q.value)
      && CurrentOf(s, kbId).Some? && (q == CurrentOf(s, kbId) <==> !Overtaken(KbHistory(once.history, kbId)))
  {
    RollbackSwaps(s, kbId, p, t);
    LatestIsCurrent(s, kbId);
    PreviousExact(MovePointer(s, kbId, p, t, false), kbId, q);
  }

  /** Rolling back to a candidate, then to the previous generation, restores the pointer and every
      state exactly when the first move is not overtaken. */
  lemma RollbackTwice(s: State, kbId: string, p: string, t: int, q: Option<string>, u: int)
    requires Reachable(s) && IsAvailable(s.generations, kbId, p)
    requires IsPrevious(After(s, Rollback(s, kbId, p, t)).generations, kbId, q)
    ensures q.Some?
    ensures var once := After(s, Rollback(s, kbId, p, t));
      var twice := After(once, Rollback(once, kbId, q.value, u));
      && CurrentOf(once, kbId) == Some(p)
      && (twice.current == s.current <==> !Overtaken(KbHistory(once.history, kbId)))
      && (!Overtaken(KbHistory(once.history, kbId)) ==> Restored(s, twice))
      && (IsPrevious(twice.generations, kbId, Some(p)) <==> !Overtaken(KbHistory(twice.history, kbId)))
      && twice.documents == s.documents && twice.chunks == s.chunks && twice.runs == s.runs
  {
    CandidateNotCurrent(s, kbId, p);
    SwapTarget(s, kbId, p, t, q);
    RollbackSwaps(MovePointer(s, kbId, p, t, false), kbId, q.value, u);
    TwiceCurrent(s, kbId, p, t, q.value, u);
    if q == CurrentOf(s, kbId) { TwiceStates(s, kbId, p, t, q.value, u); }
  }

  lemma TwiceCurrent(s: State, kbId: string, p: string, t: int, q: string, u: int)
    requires kbId in s.current
    ensures MovePointer(MovePointer(s, kbId, p, t, false), kbId, q, u, false).current == s.current <==>
      s.current[kbId] == q
  {
    assert s.current[kbId := p][kbId := q] == s.current[kbId := q];
    if s.current[kbId] == q { assert s.current[kbId := q] == s.current; }
  }

  predicate Restored(s: State, t: State) {
    && t.current == s.current
    && forall g | g in s.generations :: g in t.generations && t.generations[g].state == s.generations[g].state
  }

  lemma TwiceStates(s: State, kbId: string, p: string, t: int, q: string, u: int)
    requires Reachable(s) && IsAvailable(s.generations, kbId, p) && CurrentOf(s, kbId) == Some(q)
    ensures var once := MovePointer(s, kbId, p, t, false);
      var twice := MovePointer(once, kbId, q, u, false);
      && twice.current == s.current
      && forall g | g in s.generations :: g in twice.generations && twice.generations[g].state == s.generations[g].state
  {
    CurrentPublished(s, kbId);
  }

  // ----- listing

  function RowDocument(k: Key, state: GenerationState, d: DocumentRow): ManifestDocument {
    ManifestDocument(k.0, state, d.kbId, k.1, d.relativePath, d.mediaType, d.sizeBytes, d.mtimeNs,
                     d.contentSha256, d.pipeline, d.chunkCount)
  }

  function DocumentOf(s: State, k: Key): ManifestDocument
    requires k in s.documents && k.0 in s.generations
  {
    RowDocument(k, s.generations[k.0].state, s.documents[k])
  }

  predicate PathBefore(a: string, x: string, b: string, y: string) {
    StrLess(a, b) || (a == b && StrLess(x, y))
  }

  /** `ORDER BY d.relative_path, d.source_id`. */
  function ByPath(): (ManifestDocument, ManifestDocument) -> bool {
    (a: ManifestDocument, b: ManifestDocument) => PathBefore(a.relativePath, a.sourceId, b.relativePath, b.sourceId)
  }

  predicate IsRow(s: State, kbId: string, g: string, d: ManifestDocument) {
    && g in s.generations && (g, d.sourceId) in s.documents
    && s.documents[(g, d.sourceId)].kbId == kbId && d == DocumentOf(s, (g, d.sourceId))
  }

  /** `list_documents`: one generation, by default the published one. */
  ghost predicate IsListing(s: State, kbId: string, generation: Option<string>, docs: seq<ManifestDocument>) {
    var g := if generation.Some? then generation else CurrentOf(s, kbId);
    if g.None? then docs == []
    else Strictly(docs, ByPath()) && forall d :: d in docs <==> IsRow(s, kbId, g.value, d)
  }

  lemma ByPathAsymmetric()
    ensures Asymmetric(ByPath())
  {
    forall a: ManifestDocument, b: ManifestDocument | ByPath()(a, b) ensures !ByPath()(b, a) {
      StrTrichotomy(a.relativePath, b.relativePath);
      StrTrichotomy(a.sourceId, b.sourceId);
    }
  }

  lemma ListingUnique(
    s: State, kbId: string, generation: Option<string>, docs: seq<ManifestDocument>, others: seq<ManifestDocument>)
    requires IsListing(s, kbId, generation, docs) && IsListing(s, kbId, generation, others)
    ensures docs == others
  {
    ByPathAsymmetric();
    forall d ensures d in Elements(docs) <==> d in Elements(others) {
      assert d in docs <==> d in others;
    }
    StrictlyUnique(docs, others, ByPath());
  }

  lemma SameListing(s: State, t: State, kbId: string, docs: seq<ManifestDocument>)
    requires CurrentOf(s, kbId) == CurrentOf(t, kbId) && CurrentOf(s, kbId).Some?
    requires var g := CurrentOf(s, kbId).value;
      && g in s.generations && g in t.generations && s.generations[g].state == t.generations[g].state &&
        SameRows(s, t, g)
    ensures IsListing(s, kbId, None, docs) <==> IsListing(t, kbId, None, docs)
  {
    var g := CurrentOf(s, kbId).value;
    forall d ensures IsRow(s, kbId, g, d) <==> IsRow(t, kbId, g, d) {
      assert SameRow(s.documents, t.documents, (g, d.sourceId));
    }
  }

  lemma CurrentPublished(s: State, kbId: string)
    requires Reachable(s) && CurrentOf(s, kbId).Some?
    ensures var c := CurrentOf(s, kbId).value;
      c in s.generations && s.generations[c].state == Published && s.generations[c].kbId == kbId
  {
    ReachableHolds(s);
    var c := s.current[kbId];
    assert s.generations[c].kbId == kbId;
    assert s.generations[c].state == Published <==> PointedAt(c, s.generations[c], s.current);
  }

  lemma StagedApart(s: State, runId: string)
    requires Reachable(s) && runId in s.runs && s.runs[runId].state == RunStaged
    ensures CurrentOf(s, s.runs[runId].kbId) != Some(s.runs[runId].generationId)
  {
    ReachableHolds(s);
    StagedNotCurrent(s, runId);
  }

  lemma CommitMoves(s: State, runId: string, t: int)
    requires Reachable(s) && Commit(s, runId, t).Done?
    ensures var kb := s.runs[runId].kbId;
      var published := Commit(s, runId, t).state;
      && CurrentOf(s, kb) != Some(s.runs[runId].generationId)
      && CurrentOf(published, kb) == Some(s.runs[runId].generationId)
      && Reachable(published) && published == Step(s, CommitOp(runId), t)
  {
    StagedApart(s, runId);
    ReachableStep(s, CommitOp(runId), t);
  }

  lemma CommitRemembers(s: State, runId: string, t: int)
    requires Reachable(s) && Commit(s, runId, t).Done? && CurrentOf(s, s.runs[runId].kbId).Some?
    ensures var kb := s.runs[runId].kbId;
      Predecessor(KbHistory(Commit(s, runId, t).state.history, kb)) == CurrentOf(s, kb)
  {
    LatestIsCurrent(s, s.runs[runId].kbId);
    MoveHistory(s, s.runs[runId].kbId, s.runs[runId].generationId, t, true);
  }

  lemma PublishedRowsKept(s: State, kbId: string, calls: seq<(Operation, int)>)
    requires Reachable(s) && CurrentOf(s, kbId).Some?
    ensures SameRows(s, Exec(s, calls), CurrentOf(s, kbId).value)
  {
    CurrentPublished(s, kbId);
    ReachableHolds(s);
    ExecFreezes(s, calls, CurrentOf(s, kbId).value);
  }

  /** Publish a run, let any calls happen that leave this pointer alone, roll back to the previous
      generation: exactly when the clock let no earlier generation overtake the one before the
      publication, the rollback targets it, and then the listed documents are those from before. */
  lemma CommitThenRollback(
    s: State, runId: string, t: int, middle: seq<(Operation, int)>, p: Option<string>, u: int,
    docs: seq<ManifestDocument>)
    requires Reachable(s) && Commit(s, runId, t).Done? && CurrentOf(s, s.runs[runId].kbId).Some?
    requires var kb := s.runs[runId].kbId;
      var later := Exec(s, [(CommitOp(runId), t)] + middle);
      && KbHistory(later.history, kb) == KbHistory(Commit(s, runId, t).state.history, kb)
      && IsPrevious(later.generations, kb, p)
    ensures var kb := s.runs[runId].kbId;
      p == CurrentOf(s, kb) <==> !Overtaken(KbHistory(Commit(s, runId, t).state.history, kb))
    ensures var kb := s.runs[runId].kbId;
      !Overtaken(KbHistory(Commit(s, runId, t).state.history, kb)) ==>
        && p.Some?
        && var o := Rollback(Exec(s, [(CommitOp(runId), t)] + middle), kb, p.value, u);
          && o.Done? && o.value == Some(s.runs[runId].generationId)
          && CurrentOf(o.state, kb) == CurrentOf(s, kb)
          && (IsListing(o.state, kb, None, docs) <==> IsListing(s, kb, None, docs))
  {
    var kb := s.runs[runId].kbId;
    var later := Exec(s, [(CommitOp(runId), t)] + middle);
    CommitRemembers(s, runId, t);
    ReachableExec(s, [(CommitOp(runId), t)] + middle);
    PreviousExact(later, kb, p);
    if p == CurrentOf(s, kb) { RollbackAfter(s, runId, t, middle, p.value, u, docs); }
  }

  lemma RollbackAfter(
    s: State, runId: string, t: int, middle: seq<(Operation, int)>, p: string, u: int, docs: seq<ManifestDocument>)
    requires Reachable(s) && Commit(s, runId, t).Done? && CurrentOf(s, s.runs[runId].kbId) == Some(p)
    requires var kb := s.runs[runId].kbId;
      var later := Exec(s, [(CommitOp(runId), t)] + middle);
      && KbHistory(later.history, kb) == KbHistory(Commit(s, runId, t).state.history, kb)
      && IsAvailable(later.generations, kb, p)
    ensures var kb := s.runs[runId].kbId;
      var o := Rollback(Exec(s, [(CommitOp(runId), t)] + middle), kb, p, u);
      && o.Done? && o.value == Some(s.runs[runId].generationId) && CurrentOf(o.state, kb) == Some(p)
      && (IsListing(o.state, kb, None, docs) <==> IsListing(s, kb, None, docs))
  {
    var kb := s.runs[runId].kbId;
    var calls := [(CommitOp(runId), t)] + middle;
    CommitMoves(s, runId, t);
    ReachableExec(s, calls);
    PublishedRowsKept(s, kb, calls);
    LatestIsCurrent(Commit(s, runId, t).state, kb);
    LatestIsCurrent(Exec(s, calls), kb);
    RollbackLists(s, Exec(s, calls), kb, p, u, docs);
  }

  lemma RollbackLists(s: State, later: State, kbId: string, p: string, u: int, docs: seq<ManifestDocument>)
    requires Reachable(s) && CurrentOf(s, kbId) == Some(p)
    requires IsAvailable(later.generations, kbId, p) && CurrentOf(later, kbId) != Some(p)
    requires SameRows(s, later, p)
    ensures var o := Rollback(later, kbId, p, u);
      && o.Done? && o.value == CurrentOf(later, kbId) && CurrentOf(o.state, kbId) == Some(p)
      && (IsListing(o.state, kbId, None, docs) <==> IsListing(s, kbId, None, docs))
  {
    CurrentPublished(s, kbId);
    var t := Rollback(later, kbId, p, u).state;
    assert t.documents == later.documents && t.chunks == later.chunks;
    SameListing(s, t, kbId, docs);
  }
}
