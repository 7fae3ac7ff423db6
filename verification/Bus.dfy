/** The durable PostgreSQL bus (internal/bus/pg_publisher.go, internal/bus/pg_subscriber.go): rows that
    stay until consumed, and wake-ups that carry no payload and die with a connection.

    Publishing and fetching are transactions that overlap: a row draws its id when it is inserted and
    appears, with its wake-ups, when its transaction commits; a fetch sees the rows committed when its
    SELECT takes its snapshot, and waits for row locks before it takes one. */
module Bus {

  datatype RowState = Inserted | RolledBack | Pending | Consumed

  datatype Row = Row(channel: string, envelope: string, state: RowState)

  /** One subscriber's LISTEN on one channel. */
  datatype Ear = Ear(subscriber: nat, channel: string)

  /** The table, in id order; wake-ups not yet delivered to each connected ear; the backlog each ear
      found when it connected; the fetches under way, each with the rows its snapshot sees pending; and
      the rows handed to subscribers so far, by index. */
  datatype State = State(
    rows: seq<Row>, wakes: map<Ear, nat>, backlog: map<Ear, nat>, looking: map<Ear, set<nat>>, handed: seq<nat>)

  const EMPTY := State([], map[], map[], map[], [])

  datatype Step =
    | Insert(channel: string, envelope: string)  // a publisher's INSERT draws the next id
    | Commit(row: nat)                           // its transaction commits: the row and its wake-ups appear
    | Rollback(row: nat)                         // or is rolled back
    | Listen(ear: Ear)
    | Disconnect(ear: Ear)                       // the LISTEN connection breaks; a fetch under way goes on
    | Begin(ear: Ear)                            // a wake-up is delivered and its SELECT takes its snapshot
    | Finish(ear: Ear)                           // that SELECT gets its lock, and the row is marked

  predicate Waiting(rows: seq<Row>, i: nat, channel: string)
    requires i < |rows|
  {
    rows[i].channel == channel && rows[i].state.Pending?
  }

  function Count(rows: seq<Row>, channel: string): nat {
    if rows == [] then 0 else
      Count(rows[..|rows| - 1], channel) + (if Waiting(rows, |rows| - 1, channel) then 1 else 0)
  }

  function Visible(rows: seq<Row>, channel: string): set<nat> {
    set i | 0 <= i < |rows| && Waiting(rows, i, channel)
  }

  /** Of the rows seen, the pending one with the least id, or the end of the table. */
  function Oldest(rows: seq<Row>, channel: string, seen: set<nat>): (k: nat)
    ensures k <= |rows|
    ensures k < |rows| ==> Waiting(rows, k, channel) && k in seen
    ensures forall i :: 0 <= i < k && i in seen ==> !Waiting(rows, i, channel)
  {
    if rows == [] then 0 else
      var n := |rows| - 1;
      var k := Oldest(rows[..n], channel, seen);
      assert forall i :: 0 <= i < n ==> Waiting(rows, i, channel) == Waiting(rows[..n], i, channel);
      if k < n || (n in seen && Waiting(rows, n, channel)) then k else |rows|
  }

  function Mark(rows: seq<Row>, i: nat, state: RowState): seq<Row>
    requires i < |rows|
  {
    rows[i := rows[i].(state := state)]
  }

  /** The rest of a fetch: having waited for locks, it takes the oldest row of its snapshot that is
      still pending, or nothing, even when newer rows wait. */
  function FetchAndMark(s: State, ear: Ear): State
    requires ear in s.looking
  {
    var k, done := Oldest(s.rows, ear.channel, s.looking[ear]), s.(looking := s.looking - {ear});
    if k < |s.rows| then done.(rows := Mark(s.rows, k, Consumed), handed := s.handed + [k]) else done
  }

  predicate Open(rows: seq<Row>, r: nat) {
    r < |rows| && rows[r].state.Inserted?
  }

  function Woken(wakes: map<Ear, nat>, channel: string): map<Ear, nat> {
    map ear | ear in wakes :: if ear.channel == channel then wakes[ear] + 1 else wakes[ear]
  }

  function Next(s: State, step: Step): State {
    match step
    case Insert(channel, envelope) => s.(rows := s.rows + [Row(channel, envelope, Inserted)])
    case Commit(r) =>
      if Open(s.rows, r)
      then s.(rows := Mark(s.rows, r, Pending), wakes := Woken(s.wakes, s.rows[r].channel)) else s
    case Rollback(r) => if Open(s.rows, r) then s.(rows := Mark(s.rows, r, RolledBack)) else s
    case Listen(ear) =>
      if ear in s.wakes then s
      else s.(wakes := s.wakes[ear := 0], backlog := s.backlog[ear := Count(s.rows, ear.channel)])
    case Disconnect(ear) => s.(wakes := s.wakes - {ear}, backlog := s.backlog - {ear})
    case Begin(ear) =>
      if ear in s.wakes && s.wakes[ear] > 0 && ear !in s.looking
      then s.(wakes := s.wakes[ear := s.wakes[ear] - 1],
              looking := s.looking[ear := Visible(s.rows, ear.channel)]) else s
    case Finish(ear) => if ear in s.looking then FetchAndMark(s, ear) else s
  }

  function After(steps: seq<Step>): State {
    if steps == [] then EMPTY else Next(After(steps[..|steps| - 1]), steps[|steps| - 1])
  }

  // ---- What every run keeps ----

  /** 1 when the ear's fetch under way has a row to take. */
  function InHand(s: State, ear: Ear): nat {
    if ear in s.looking && Oldest(s.rows, ear.channel, s.looking[ear]) < |s.rows| then 1 else 0
  }

  predicate CoveredFor(s: State, ear: Ear)
    requires ear in s.wakes && ear in s.backlog
  {
    Count(s.rows, ear.channel) <= s.backlog[ear] + s.wakes[ear] + InHand(s, ear)
  }

  /** Pending rows never exceed an ear's backlog plus its undelivered wake-ups, one more while its
      fetch under way still has a row to take. */
  ghost predicate Covered(s: State) {
    && s.backlog.Keys == s.wakes.Keys
    && (forall ear {:trigger CoveredFor(s, ear)} :: ear in s.wakes ==> CoveredFor(s, ear))
  }

  /** The consumed rows are exactly those handed over, each handed over once. */
  ghost predicate HandedOnce(s: State) {
    && (forall i, j :: 0 <= i < j < |s.handed| ==> s.handed[i] != s.handed[j])
    && (forall r :: r in s.handed <==> 0 <= r < |s.rows| && s.rows[r].state.Consumed?)
  }

  lemma {:induction false} CountMark(rows: seq<Row>, k: nat, state: RowState, channel: string)
    requires k < |rows|
    ensures var after := Mark(rows, k, state);
      Count(after, channel) + (if Waiting(rows, k, channel) then 1 else 0)
      == Count(rows, channel) + (if Waiting(after, k, channel) then 1 else 0)
    decreases |rows|
  {
    var after, n := Mark(rows, k, state), |rows| - 1;
    if k < n {
      CountMark(rows[..n], k, state, channel);
      assert after[..n] == Mark(rows[..n], k, state);
    } else {
      assert after[..n] == rows[..n];
    }
  }

  lemma {:induction false} NothingPending(rows: seq<Row>, channel: string)
    ensures (forall i :: 0 <= i < |rows| ==> !Waiting(rows, i, channel)) <==> Count(rows, channel) == 0
  {
    if rows != [] {
      var n := |rows| - 1;
      NothingPending(rows[..n], channel);
      assert forall i :: 0 <= i < n ==> Waiting(rows, i, channel) == Waiting(rows[..n], i, channel);
    }
  }

  lemma InsertKeepsCovered(s: State, channel: string, envelope: string)
    requires Covered(s)
    ensures Covered(Next(s, Insert(channel, envelope)))
  {
    var s' := Next(s, Insert(channel, envelope));
    assert s'.rows[..|s.rows|] == s.rows;
    forall ear | ear in s'.wakes
      ensures CoveredFor(s', ear)
    {
      assert CoveredFor(s, ear);
      SameOldest(s.rows, s'.rows, ear.channel, if ear in s.looking then s.looking[ear] else {});
    }
  }

  /** A fetch that had a row to take still has one when no row it sees stopped waiting. */
  lemma SameOldest(rows: seq<Row>, after: seq<Row>, channel: string, seen: set<nat>)
    requires |rows| <= |after|
    requires forall i :: 0 <= i < |rows| && Waiting(rows, i, channel) ==> Waiting(after, i, channel)
    ensures Oldest(rows, channel, seen) < |rows| ==> Oldest(after, channel, seen) < |after|
  {
    var k := Oldest(rows, channel, seen);
    assert k < |rows| ==> Waiting(after, k, channel) && k in seen;
  }

  lemma SettleKeepsCovered(s: State, r: nat, step: Step)
    requires Covered(s) && Open(s.rows, r) && (step == Commit(r) || step == Rollback(r))
    ensures Covered(Next(s, step))
  {
    var s' := Next(s, step);
    forall ear | ear in s'.wakes
      ensures CoveredFor(s', ear)
    {
      assert CoveredFor(s, ear);
      CountMark(s.rows, r, s'.rows[r].state, ear.channel);
      SameOldest(s.rows, s'.rows, ear.channel, if ear in s.looking then s.looking[ear] else {});
    }
  }

  lemma BeginKeepsCovered(s: State, ear: Ear)
    requires Covered(s)
    ensures Covered(Next(s, Begin(ear)))
  {
    var s' := Next(s, Begin(ear));
    forall other | other in s'.wakes
      ensures CoveredFor(s', other)
    {
      assert CoveredFor(s, other);
      if other == ear {
        SnapshotSeesAll(s.rows, ear.channel);
      }
    }
  }

  lemma SnapshotSeesAll(rows: seq<Row>, channel: string)
    ensures Oldest(rows, channel, Visible(rows, channel)) < |rows| <==> Count(rows, channel) > 0
  {
    NothingPending(rows, channel);
    var k := Oldest(rows, channel, Visible(rows, channel));
    assert forall i :: 0 <= i < k ==> i in Visible(rows, channel) || !Waiting(rows, i, channel);
  }

  lemma FinishKeepsCovered(s: State, ear: Ear)
    requires Covered(s) && ear in s.looking
    ensures Covered(FetchAndMark(s, ear))
  {
    var s' := FetchAndMark(s, ear);
    var k := Oldest(s.rows, ear.channel, s.looking[ear]);
    forall other | other in s'.wakes
      ensures CoveredFor(s', other)
    {
      assert CoveredFor(s, other);
      if k < |s.rows| {
        CountMark(s.rows, k, Consumed, other.channel);
        if other.channel != ear.channel {
          SameOldest(s.rows, s'.rows, other.channel, if other in s.looking then s.looking[other] else {});
        }
      }
    }
  }

  lemma StepKeepsCovered(s: State, step: Step)
    requires Covered(s)
    ensures Covered(Next(s, step))
  {
    match step
    case Insert(channel, envelope) => InsertKeepsCovered(s, channel, envelope);
    case Commit(r) => if Open(s.rows, r) { SettleKeepsCovered(s, r, step); }
    case Rollback(r) => if Open(s.rows, r) { SettleKeepsCovered(s, r, step); }
    case Begin(ear) => BeginKeepsCovered(s, ear);
    case Finish(ear) => if ear in s.looking { FinishKeepsCovered(s, ear); }
    case _ =>
      forall ear | ear in Next(s, step).wakes
        ensures CoveredFor(Next(s, step), ear)
      {
        assert ear in s.wakes ==> CoveredFor(s, ear);
      }
  }

  lemma StepKeepsHanded(s: State, step: Step)
    requires HandedOnce(s)
    ensures HandedOnce(Next(s, step))
  {
    var s' := Next(s, step);
    forall r
      ensures r in s'.handed <==> 0 <= r < |s'.rows| && s'.rows[r].state.Consumed?
    {
      assert r in s.handed <==> 0 <= r < |s.rows| && s.rows[r].state.Consumed?;
    }
  }

  /** In every run, with any number of publishers and subscribers: each row is handed over at most once,
      and no ear falls behind by more than its backlog and wake-ups. */
  lemma {:induction false} EveryRun(steps: seq<Step>)
    ensures HandedOnce(After(steps)) && Covered(After(steps))
  {
    if steps != [] {
      var before, last := After(steps[..|steps| - 1]), steps[|steps| - 1];
      EveryRun(steps[..|steps| - 1]);
      StepKeepsHanded(before, last);
      StepKeepsCovered(before, last);
    }
  }

  /** A connected ear that started level, has taken every wake-up and is idle leaves nothing: each row
      committed on its channel has been handed to some subscriber, once. */
  lemma IdleEarMeansDrained(steps: seq<Step>, ear: Ear, r: nat)
    requires var s := After(steps);
      ear in s.wakes && s.wakes[ear] == 0 && ear !in s.looking && ear in s.backlog && s.backlog[ear] == 0
    requires var s := After(steps);
      r < |s.rows| && s.rows[r].channel == ear.channel && !s.rows[r].state.Inserted? && !s.rows[r].state.RolledBack?
    ensures r in After(steps).handed
  {
    EveryRun(steps);
    var s := After(steps);
    assert CoveredFor(s, ear);
    NothingPending(s.rows, ear.channel);
    assert !Waiting(s.rows, r, ear.channel);
  }

  /** Rows are never lost, changed or reordered: a row keeps its place, channel and envelope. It appears exactly by
      its commit, is dropped exactly by its rollback, and is consumed only by a fetch on its channel that sees it;
      consumed and dropped rows stay so. */
  lemma RowsAreDurable(s: State, step: Step, r: nat)
    requires r < |s.rows|
    ensures var rows := Next(s, step).rows;
      && |rows| == |s.rows| + (if step.Insert? then 1 else 0)
      && rows[r] == s.rows[r].(state := rows[r].state)
      && match s.rows[r].state
         case Inserted =>
           rows[r].state == if step == Commit(r) then Pending else if step == Rollback(r) then RolledBack else Inserted
         case Pending => rows[r].state == Pending || (rows[r].state == Consumed && Sees(s, step, r))
         case final => rows[r].state == final
  {
  }

  predicate Sees(s: State, step: Step, r: nat)
    requires r < |s.rows|
  {
    step.Finish? && step.ear in s.looking && r in s.looking[step.ear] && s.rows[r].channel == step.ear.channel
  }

  /** A fetch hands over the oldest row of its snapshot that is still pending on its channel, that row only, and
      nothing exactly when no row of its snapshot is. */
  lemma FetchTakesOldestSeen(s: State, ear: Ear)
    requires ear in s.looking
    ensures var s', seen := Next(s, Finish(ear)), s.looking[ear];
      && s'.looking == s.looking - {ear}
      && (s'.handed == s.handed <==> forall i :: i in seen && i < |s.rows| ==> !Waiting(s.rows, i, ear.channel))
      && (s'.handed != s.handed ==>
            exists k: nat :: OldestSeen(s.rows, ear.channel, seen, k) && s'.handed == s.handed + [k]
                        && s'.rows == s.rows[k := s.rows[k].(state := Consumed)])
  {
    var seen := s.looking[ear];
    var k := Oldest(s.rows, ear.channel, seen);
    if k < |s.rows| {
      assert OldestSeen(s.rows, ear.channel, seen, k);
    }
  }

  predicate OldestSeen(rows: seq<Row>, channel: string, seen: set<nat>, k: nat) {
    && k < |rows| && k in seen && Waiting(rows, k, channel)
    && forall i :: i in seen && i < k ==> !Waiting(rows, i, channel)
  }

  /** A connected ear's wake-ups grow by one with each commit on its channel, and shrink by one with each fetch it
      begins, whose snapshot is all that is pending on the channel; its backlog is what was pending when it came. */
  lemma WakeUpsFollowCommits(s: State, step: Step, ear: Ear)
    requires ear in s.wakes
    ensures var s' := Next(s, step);
      if step == Disconnect(ear) then ear !in s'.wakes
      else
        && ear in s'.wakes
        && s'.wakes[ear] + (if Starts(s, step, ear) then 1 else 0)
           == s.wakes[ear] + (if Reaches(s, step, ear) then 1 else 0)
    ensures Starts(s, step, ear) ==> ear in Next(s, step).looking
                                     && Next(s, step).looking[ear] == Visible(s.rows, ear.channel)
  {
  }

  predicate Reaches(s: State, step: Step, ear: Ear) {
    step.Commit? && Open(s.rows, step.row) && s.rows[step.row].channel == ear.channel
  }

  predicate Starts(s: State, step: Step, ear: Ear) {
    step == Begin(ear) && ear in s.wakes && s.wakes[ear] > 0 && ear !in s.looking
  }

  lemma {:induction false} CountIsVisible(rows: seq<Row>, channel: string)
    ensures Count(rows, channel) == |Visible(rows, channel)|
  {
    if rows != [] {
      var n := |rows| - 1;
      CountIsVisible(rows[..n], channel);
      assert forall i :: 0 <= i < n ==> Waiting(rows, i, channel) == Waiting(rows[..n], i, channel);
      assert Visible(rows, channel) == Visible(rows[..n], channel) + if Waiting(rows, n, channel) then {n} else {};
    } else {
      assert Visible(rows, channel) == {};
    }
  }

  lemma ListenersStartWithBacklog(s: State, ear: Ear)
    requires ear !in s.wakes
    ensures var s' := Next(s, Listen(ear));
      ear in s'.wakes && s'.wakes[ear] == 0 && ear in s'.backlog && s'.backlog[ear] == |Visible(s.rows, ear.channel)|
  {
    CountIsVisible(s.rows, ear.channel);
  }

  // ---- The order of delivery ----

  /** The consumed rows of a channel are its oldest ones, by id. */
  ghost predicate OldestFirst(rows: seq<Row>) {
    forall i, j :: 0 <= i < j < |rows| && rows[i].channel == rows[j].channel && rows[j].state.Consumed? ==>
      rows[i].state.Consumed? || rows[i].state.RolledBack?
  }

  /** No older row of the channel is still uncommitted when row r commits. */
  predicate InOrder(rows: seq<Row>, r: nat) {
    Open(rows, r) ==> forall i :: 0 <= i < r && rows[i].channel == rows[r].channel ==> !rows[i].state.Inserted?
  }

  predicate CommitInOrderAt(steps: seq<Step>, k: nat)
    requires k < |steps|
  {
    steps[k].Commit? ==> InOrder(After(steps[..k]).rows, steps[k].row)
  }

  /** Publishers of one channel commit in the order of their ids. */
  ghost predicate CommitsInOrder(steps: seq<Step>) {
    forall k {:trigger CommitInOrderAt(steps, k)} :: 0 <= k < |steps| ==> CommitInOrderAt(steps, k)
  }

  predicate Appeared(row: Row) {
    row.state.Pending? || row.state.Consumed?
  }

  /** Behind a row that has appeared, no older row of the channel is still to appear. */
  ghost predicate Sorted(rows: seq<Row>) {
    forall i, j :: 0 <= i < j < |rows| && rows[i].channel == rows[j].channel && Appeared(rows[j]) ==>
      !rows[i].state.Inserted?
  }

  /** A snapshot sees only rows of its channel that have appeared, and with each row it sees every older
      one still pending. */
  ghost predicate SoundSnapshot(rows: seq<Row>, channel: string, seen: set<nat>) {
    forall j :: j in seen ==>
      && j < |rows| && Appeared(rows[j]) && rows[j].channel == channel
      && forall i :: 0 <= i < j && Waiting(rows, i, channel) ==> i in seen
  }

  ghost predicate SoundFetch(s: State, ear: Ear)
    requires ear in s.looking
  {
    SoundSnapshot(s.rows, ear.channel, s.looking[ear])
  }

  ghost predicate Ordered(s: State) {
    && OldestFirst(s.rows) && Sorted(s.rows)
    && forall ear {:trigger SoundFetch(s, ear)} :: ear in s.looking ==> SoundFetch(s, ear)
  }

  /** Snapshots stay sound while rows are added and settle, unless a row starts waiting behind one that
      has appeared. */
  lemma SnapshotStays(rows: seq<Row>, after: seq<Row>, channel: string, seen: set<nat>)
    requires SoundSnapshot(rows, channel, seen) && |rows| <= |after|
    requires forall i :: 0 <= i < |rows| ==>
      after[i].channel == rows[i].channel && (Appeared(rows[i]) ==> Appeared(after[i]))
    requires forall i, j ::
      (0 <= i < j < |rows| && Waiting(after, i, channel) && !Waiting(rows, i, channel) && rows[j].channel == channel)
      ==> !Appeared(rows[j])
    ensures SoundSnapshot(after, channel, seen)
  {
  }

  lemma SnapshotsStay(s: State, after: seq<Row>)
    requires forall ear {:trigger SoundFetch(s, ear)} :: ear in s.looking ==> SoundFetch(s, ear)
    requires |s.rows| <= |after| && forall i :: 0 <= i < |s.rows| ==>
      after[i].channel == s.rows[i].channel && (Appeared(s.rows[i]) ==> Appeared(after[i]))
    requires forall i, j ::
      (0 <= i < j < |s.rows| && after[i].state.Pending? && !s.rows[i].state.Pending?
       && s.rows[j].channel == s.rows[i].channel)
      ==> !Appeared(s.rows[j])
    ensures forall ear :: ear in s.looking ==> SoundSnapshot(after, ear.channel, s.looking[ear])
  {
    forall ear | ear in s.looking
      ensures SoundSnapshot(after, ear.channel, s.looking[ear])
    {
      assert SoundFetch(s, ear);
      SnapshotStays(s.rows, after, ear.channel, s.looking[ear]);
    }
  }

  lemma StepKeepsOrder(s: State, step: Step)
    requires Ordered(s) && (step.Commit? ==> InOrder(s.rows, step.row))
    ensures Ordered(Next(s, step))
  {
    SettlingKeepsSorted(s, step);
    StepKeepsSnapshots(s, step);
    if step.Finish? && step.ear in s.looking {
      FinishKeepsOldestFirst(s, step.ear);
    } else {
      NothingConsumed(s, step);
    }
  }

  lemma NothingConsumed(s: State, step: Step)
    requires OldestFirst(s.rows) && !(step.Finish? && step.ear in s.looking)
    ensures OldestFirst(Next(s, step).rows)
  {
  }

  lemma StepKeepsSnapshots(s: State, step: Step)
    requires Ordered(s) && (step.Commit? ==> InOrder(s.rows, step.row))
    ensures var s' := Next(s, step);
      forall ear {:trigger SoundFetch(s', ear)} :: ear in s'.looking ==> SoundFetch(s', ear)
  {
    var s' := Next(s, step);
    SnapshotsStay(s, s'.rows);
    forall ear | ear in s'.looking
      ensures SoundFetch(s', ear)
    {
      if !(step.Begin? && step.ear == ear) {
        assert s'.looking[ear] == s.looking[ear];
      }
    }
  }

  lemma SettlingKeepsSorted(s: State, step: Step)
    requires Ordered(s) && (step.Commit? ==> InOrder(s.rows, step.row))
    ensures Sorted(Next(s, step).rows)
  {
  }

  lemma FinishKeepsOldestFirst(s: State, ear: Ear)
    requires Ordered(s) && ear in s.looking
    ensures OldestFirst(FetchAndMark(s, ear).rows)
  {
    var k := Oldest(s.rows, ear.channel, s.looking[ear]);
    if k < |s.rows| {
      assert SoundFetch(s, ear);
      forall i | 0 <= i < k && s.rows[i].channel == ear.channel
        ensures s.rows[i].state.Consumed? || s.rows[i].state.RolledBack?
      {
        assert !Waiting(s.rows, i, ear.channel);
      }
    }
  }

  /** When publishers commit in id order, consumed rows are always a channel's oldest. */
  lemma {:induction false} OrderedCommitsKeepOrder(steps: seq<Step>)
    requires CommitsInOrder(steps)
    ensures Ordered(After(steps))
  {
    if steps != [] {
      var n := |steps| - 1;
      var before := steps[..n];
      forall k | 0 <= k < n
        ensures CommitInOrderAt(before, k)
      {
        assert CommitInOrderAt(steps, k);
        assert before[..k] == steps[..k];
      }
      OrderedCommitsKeepOrder(before);
      assert CommitInOrderAt(steps, n);
      StepKeepsOrder(After(before), steps[n]);
    }
  }

  // ---- Exactly when delivery follows the ids ----

  predicate IsPublication(step: Step) {
    step.Insert? || step.Commit? || step.Rollback?
  }

  ghost predicate OnlyPublications(steps: seq<Step>) {
    forall k :: 0 <= k < |steps| ==> IsPublication(steps[k])
  }

  /** What the publishers did in a run. */
  function Publications(steps: seq<Step>): seq<Step> {
    if steps == [] then [] else
      Publications(steps[..|steps| - 1]) + (if IsPublication(steps[|steps| - 1]) then [steps[|steps| - 1]] else [])
  }

  /** However subscribers come, go and fetch while the publishers do this, consumed rows are the oldest. */
  ghost predicate DeliveryFollowsIds(pubs: seq<Step>) {
    forall steps :: Publications(steps) <= pubs ==> OldestFirst(After(steps).rows)
  }

  lemma AfterOneMore(steps: seq<Step>, step: Step)
    ensures After(steps + [step]) == Next(After(steps), step)
    ensures Publications(steps + [step]) == Publications(steps) + (if IsPublication(step) then [step] else [])
  {
    assert (steps + [step])[..|steps|] == steps;
  }

  lemma {:induction false} PublicationsPrefix(steps: seq<Step>, k: nat)
    requires k <= |steps|
    ensures Publications(steps[..k]) <= Publications(steps)
  {
    if k < |steps| {
      var before := steps[..|steps| - 1];
      PublicationsPrefix(before, k);
      assert before[..k] == steps[..k];
    } else {
      assert steps[..k] == steps;
    }
  }

  /** The same rows, as far as publishers can tell. */
  ghost predicate SameInserted(a: seq<Row>, b: seq<Row>) {
    && |a| == |b|
    && forall i :: 0 <= i < |a| ==> a[i].channel == b[i].channel && a[i].state.Inserted? == b[i].state.Inserted?
  }

  lemma StepKeepsSameInserted(s: State, p: State, step: Step)
    requires SameInserted(s.rows, p.rows)
    ensures SameInserted(Next(s, step).rows, if IsPublication(step) then Next(p, step).rows else p.rows)
  {
  }

  /** A run and its publications agree on what is still uncommitted. */
  lemma {:induction false} SubscribersDoNotPublish(steps: seq<Step>)
    ensures SameInserted(After(steps).rows, After(Publications(steps)).rows)
  {
    if steps != [] {
      var before, last := steps[..|steps| - 1], steps[|steps| - 1];
      SubscribersDoNotPublish(before);
      StepKeepsSameInserted(After(before), After(Publications(before)), last);
      AfterOneMore(Publications(before), last);
      assert steps == before + [last];
      AfterOneMore(before, last);
      assert !IsPublication(last) ==> Publications(steps) == Publications(before);
    }
  }

  lemma CommitsCarryOver(steps: seq<Step>, pubs: seq<Step>)
    requires CommitsInOrder(pubs) && Publications(steps) <= pubs
    ensures CommitsInOrder(steps)
  {
    forall k | 0 <= k < |steps|
      ensures CommitInOrderAt(steps, k)
    {
      if steps[k].Commit? {
        var done := Publications(steps[..k]);
        assert steps[..k + 1] == steps[..k] + [steps[k]];
        AfterOneMore(steps[..k], steps[k]);
        PublicationsPrefix(steps, k + 1);
        assert done + [steps[k]] <= pubs;
        assert pubs[..|done|] == done && pubs[|done|] == steps[k];
        assert CommitInOrderAt(pubs, |done|);
        SubscribersDoNotPublish(steps[..k]);
      }
    }
  }

  /** An ear that listens from the start and takes nothing has a wake-up for every pending row. */
  lemma {:induction false} ListenThenPublish(ear: Ear, pubs: seq<Step>)
    requires OnlyPublications(pubs)
    ensures Publications([Listen(ear)] + pubs) == pubs
    ensures Awake(After([Listen(ear)] + pubs), After(pubs).rows, ear)
  {
    if pubs == [] {
      assert [Listen(ear)] + pubs == [] + [Listen(ear)];
      AfterOneMore([], Listen(ear));
    } else {
      var before, last := pubs[..|pubs| - 1], pubs[|pubs| - 1];
      var run := [Listen(ear)] + before;
      ListenThenPublish(ear, before);
      PublishOneMore(run, before, last, ear);
      assert [Listen(ear)] + pubs == run + [last] && pubs == before + [last];
    }
  }

  lemma PublishOneMore(run: seq<Step>, pubs: seq<Step>, last: Step, ear: Ear)
    requires IsPublication(last) && Publications(run) == pubs && Awake(After(run), After(pubs).rows, ear)
    ensures Publications(run + [last]) == pubs + [last]
    ensures Awake(After(run + [last]), After(pubs + [last]).rows, ear)
  {
    AfterOneMore(run, last);
    AfterOneMore(pubs, last);
    PublicationWakes(After(run), After(pubs), ear, last);
  }

  /** An idle connected ear over these rows, with a wake-up for each one pending. */
  predicate Awake(s: State, rows: seq<Row>, ear: Ear) {
    s.rows == rows && ear in s.wakes && ear !in s.looking && s.wakes[ear] == Count(rows, ear.channel)
  }

  lemma PublicationWakes(s: State, p: State, ear: Ear, step: Step)
    requires IsPublication(step) && Awake(s, p.rows, ear)
    ensures Awake(Next(s, step), Next(p, step).rows, ear)
  {
    var s' := Next(s, step);
    if step.Insert? {
      assert s'.rows[..|s.rows|] == s.rows;
    } else if Open(s.rows, step.row) {
      CountMark(s.rows, step.row, s'.rows[step.row].state, ear.channel);
    }
  }

  /** All that was pending on the channel has been consumed, and nothing else has changed. */
  ghost predicate Drained(rows: seq<Row>, after: seq<Row>, channel: string) {
    && |after| == |rows|
    && forall i :: 0 <= i < |rows| ==>
      after[i] == if Waiting(rows, i, channel) then rows[i].(state := Consumed) else rows[i]
  }

  /** An ear with enough wake-ups can drain its channel. */
  lemma {:induction false} Drain(steps: seq<Step>, ear: Ear) returns (more: seq<Step>)
    requires var s := After(steps); ear in s.wakes && ear !in s.looking && s.wakes[ear] >= Count(s.rows, ear.channel)
    ensures Publications(more) == Publications(steps)
    ensures Drained(After(steps).rows, After(more).rows, ear.channel)
    decreases Count(After(steps).rows, ear.channel)
  {
    var s := After(steps);
    NothingPending(s.rows, ear.channel);
    if Count(s.rows, ear.channel) == 0 {
      more := steps;
    } else {
      var k, next := TakeOne(steps, ear);
      more := Drain(next, ear);
    }
  }

  lemma TakeOne(steps: seq<Step>, ear: Ear) returns (k: nat, next: seq<Step>)
    requires var s := After(steps);
      ear in s.wakes && ear !in s.looking && s.wakes[ear] > 0 && Count(s.rows, ear.channel) > 0
    ensures Publications(next) == Publications(steps)
    ensures var s, s' := After(steps), After(next);
      && k < |s.rows| && Waiting(s.rows, k, ear.channel) && s'.rows == Mark(s.rows, k, Consumed)
      && ear in s'.wakes && ear !in s'.looking && s'.wakes[ear] == s.wakes[ear] - 1
      && Count(s'.rows, ear.channel) == Count(s.rows, ear.channel) - 1
  {
    var rows := After(steps).rows;
    SnapshotSeesAll(rows, ear.channel);
    k := Oldest(rows, ear.channel, Visible(rows, ear.channel));
    CountMark(rows, k, Consumed, ear.channel);
    AfterOneMore(steps, Begin(ear));
    AfterOneMore(steps + [Begin(ear)], Finish(ear));
    next := steps + [Begin(ear)] + [Finish(ear)];
  }

  /** A commit out of order lets the younger row be consumed while the older one is still to appear. */
  lemma BadCommitBreaksOrder(pubs: seq<Step>, k: nat) returns (steps: seq<Step>)
    requires OnlyPublications(pubs) && k < |pubs| && !CommitInOrderAt(pubs, k)
    ensures Publications(steps) <= pubs && !OldestFirst(After(steps).rows)
  {
    var before, r := pubs[..k], pubs[k].row;
    var rows := After(before).rows;
    var i: nat :| i < r && rows[i].channel == rows[r].channel && rows[i].state.Inserted?;
    var ear := Ear(0, rows[r].channel);
    var committed := before + [Commit(r)];
    assert committed == pubs[..k + 1];
    AfterOneMore(before, Commit(r));
    ListenThenPublish(ear, committed);
    steps := Drain([Listen(ear)] + committed, ear);
    var after := After(steps).rows;
    assert Waiting(After(committed).rows, r, ear.channel) && !Waiting(After(committed).rows, i, ear.channel);
    assert after[i].state.Inserted? && after[r].state.Consumed?;
  }

  /** Whatever subscribers do, delivery follows the ids exactly when the publishers of each channel commit
      in the order of their ids. */
  lemma DeliveryFollowsIdsExactlyWhen(pubs: seq<Step>)
    requires OnlyPublications(pubs)
    ensures DeliveryFollowsIds(pubs) <==> CommitsInOrder(pubs)
  {
    if CommitsInOrder(pubs) {
      forall steps | Publications(steps) <= pubs
        ensures OldestFirst(After(steps).rows)
      {
        CommitsCarryOver(steps, pubs);
        OrderedCommitsKeepOrder(steps);
      }
    } else {
      var k: nat :| k < |pubs| && !CommitInOrderAt(pubs, k);
      var steps := BadCommitBreaksOrder(pubs, k);
    }
  }

  /** Two publishers that commit in the other order let a newer row overtake: the order is lost, while
      both laws of EveryRun stay. */
  lemma NewerRowOvertakes(ear: Ear, elder: Row, younger: Row) returns (steps: seq<Step>)
    requires elder.channel == ear.channel == younger.channel && elder.state.Inserted? && younger.state.Inserted?
    ensures !OldestFirst(After(steps).rows)
    ensures HandedOnce(After(steps)) && Covered(After(steps))
  {
    var overtaken := YoungerHandedOver(ear, elder, younger);
    steps := overtaken + [Commit(0)];
    assert steps[..|overtaken|] == overtaken;
    var rows := After(steps).rows;
    assert rows[0] == elder.(state := Pending) && rows[1] == younger.(state := Consumed);
    EveryRun(steps);
  }

  lemma YoungerHandedOver(ear: Ear, elder: Row, younger: Row) returns (steps: seq<Step>)
    requires elder.channel == ear.channel == younger.channel && elder.state.Inserted? && younger.state.Inserted?
    ensures After(steps).rows == [elder, younger.(state := Consumed)]
  {
    var inserted := TwoInserts(ear, elder, younger);
    var mid := [elder, younger.(state := Pending)];
    var committed := inserted + [Commit(1)];
    assert committed[..|inserted|] == inserted;
    assert After(committed) == State(mid, map[ear := 1], map[ear := 0], map[], []);
    var begun := committed + [Begin(ear)];
    assert begun[..|committed|] == committed;
    assert Waiting(mid, 1, ear.channel) && !Waiting(mid, 0, ear.channel);
    assert Visible(mid, ear.channel) == {1};
    assert After(begun) == State(mid, map[ear := 0], map[ear := 0], map[ear := {1}], []);
    steps := begun + [Finish(ear)];
    assert steps[..|begun|] == begun;
    assert Oldest(mid, ear.channel, {1}) == 1;
  }

  lemma TwoInserts(ear: Ear, elder: Row, younger: Row) returns (steps: seq<Step>)
    requires elder.state.Inserted? && younger.state.Inserted?
    ensures After(steps) == State([elder, younger], map[ear := 0], map[ear := 0], map[], [])
  {
    var one := [Listen(ear)];
    assert one[..0] == [];
    assert After(one) == State([], map[ear := 0], map[ear := 0], map[], []);
    var two := one + [Insert(elder.channel, elder.envelope)];
    assert two[..1] == one;
    assert After(two) == State([elder], map[ear := 0], map[ear := 0], map[], []);
    steps := two + [Insert(younger.channel, younger.envelope)];
    assert steps[..2] == two;
  }

  // ---- The code ----

  class Store {
    var rows: seq<Row>
    var wakes: map<Ear, nat>
    var looking: map<Ear, set<nat>>
    ghost var backlog: map<Ear, nat>
    ghost var handed: seq<nat>

    ghost function View(): State
      reads this
    {
      State(rows, wakes, backlog, looking, handed)
    }

    constructor ()
      ensures View() == EMPTY
    {
      rows, wakes, backlog, looking, handed := [], map[], map[], map[], [];
    }

    /** The INSERT of a publication. */
    method InsertRow(channel: string, envelope: string) returns (id: nat)
      modifies this
      ensures View() == Next(old(View()), Insert(channel, envelope)) && Open(rows, id)
    {
      id := |rows|;
      rows := rows + [Row(channel, envelope, Inserted)];
    }

    /** Its commit, which makes the row and the NOTIFY appear together. */
    method CommitRow(id: nat)
      requires Open(rows, id)
      modifies this
      ensures View() == Next(old(View()), Commit(id))
    {
      wakes := map ear | ear in wakes :: if ear.channel == rows[id].channel then wakes[ear] + 1 else wakes[ear];
      rows := rows[id := rows[id].(state := Pending)];
    }

    /** The deferred rollback of a publication that failed before its commit. */
    method RollbackRow(id: nat)
      requires Open(rows, id)
      modifies this
      ensures View() == Next(old(View()), Rollback(id))
    {
      rows := rows[id := rows[id].(state := RolledBack)];
    }

    /** LISTEN: wake-ups are queued from now on; the rows already pending raise none. */
    method Connect(ear: Ear)
      requires ear !in wakes
      modifies this
      ensures View() == Next(old(View()), Listen(ear))
    {
      wakes := wakes[ear := 0];
      backlog := backlog[ear := Count(rows, ear.channel)];
    }

    /** The LISTEN connection breaks: its queued wake-ups are gone. */
    method Drop(ear: Ear)
      modifies this
      ensures View() == Next(old(View()), Disconnect(ear))
    {
      wakes := wakes - {ear};
      backlog := backlog - {ear};
    }

    /** The dispatch loop receives a wake-up and starts a fetch. */
    method Wake(ear: Ear)
      requires ear in wakes && wakes[ear] > 0 && ear !in looking
      modifies this
      ensures View() == Next(old(View()), Begin(ear))
    {
      wakes := wakes[ear := wakes[ear] - 1];
      looking := looking[ear := Visible(rows, ear.channel)];
    }

    /** The scan by id for a row of the snapshot still pending, and its mark. */
    method Fetch(ear: Ear) returns (envelope: string, found: bool)
      requires ear in looking
      modifies this
      ensures View() == Next(old(View()), Finish(ear))
      ensures found <==> InHand(old(View()), ear) == 1
      ensures found ==> envelope == old(rows)[Oldest(old(rows), ear.channel, old(looking)[ear])].envelope
    {
      envelope, found := "", false;
      var k, seen := 0, looking[ear];
      while k < |rows| && !(k in seen && rows[k].channel == ear.channel && rows[k].state == Pending)
        invariant k <= |rows|
        invariant forall i :: 0 <= i < k && i in seen ==> !Waiting(rows, i, ear.channel)
      {
        k := k + 1;
      }
      looking := looking - {ear};
      if k < |rows| {
        assert Waiting(rows, k, ear.channel);
        assert Oldest(rows, ear.channel, seen) == k;
        envelope, found := rows[k].envelope, true;
        rows := rows[k := rows[k].(state := Consumed)];
        handed := handed + [k];
      }
    }
  }
}
