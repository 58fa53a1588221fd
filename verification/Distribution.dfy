/**
 Snapshot distribution: the operator's reconcile loop, the latest-value gRPC stream,
 and the router's snapshot sources, as imperative steps and as one step system.
 */
module Distribution {
  // From cmd/routed-operator/src/main.rs and grpc.rs, and cmd/routed/src/snapshot_source.rs. The hash of a snapshot
  // is an arbitrary function of its core. Which listings succeed, who leads, which writes fail, what a file reads as
  // and which chunks parse are inputs.

  import opened Snapshots
  import C = Compiler
  import CompiledSnapshots

  type Hash = Core -> string

  function FromCore(hash: Hash, core: Core): Snapshot {
    Snapshot(hash(core), core)
  }

  // ---- the operator ----

  /** One turn of the loop: the objects listed, and whether this replica leads and its writes succeed. */
  datatype Attempt = ListFailed | Listed(input: C.CompileInput, serialises: bool, leader: bool, publishes: bool)

  datatype OperatorState = OperatorState(
    sentHash: Option<string>, cmHash: Option<string>, channel: Option<Snapshot>, ready: bool)

  function Compiled(hash: Hash, a: Attempt): Option<Snapshot> {
    if a.Listed? && C.Compile(a.input).core.Some? then Some(FromCore(hash, C.Compile(a.input).core.value)) else None
  }

  predicate Sends(hash: Hash, op: OperatorState, a: Attempt) {
    var s := Compiled(hash, a);
    s.Some? && a.serialises && op.sentHash != Some(s.value.hash)
  }

  predicate Publishes(hash: Hash, op: OperatorState, a: Attempt) {
    var s := Compiled(hash, a);
    s.Some? && a.leader && a.publishes && op.cmHash != Some(s.value.hash)
  }

  function Reconciled(hash: Hash, op: OperatorState, a: Attempt): OperatorState {
    var s := Compiled(hash, a);
    var sent := if Sends(hash, op, a) then op.(channel := s, ready := true, sentHash := Some(s.value.hash)) else op;
    if Publishes(hash, op, a) then sent.(cmHash := Some(s.value.hash)) else sent
  }

  function Republished(hash: Hash, op: OperatorState, cm: Option<Snapshot>, a: Attempt): Option<Snapshot> {
    if Publishes(hash, op, a) then Compiled(hash, a) else cm
  }

  const STARTED := OperatorState(None, None, None, false)

  /** The operator and the ConfigMap after a run of turns. */
  function Turns(
    hash: Hash, op: OperatorState, cm: Option<Snapshot>, attempts: seq<Attempt>
  ): (OperatorState, Option<Snapshot>) {
    if attempts == [] then (op, cm) else
      var (op1, cm1) := Turns(hash, op, cm, attempts[..|attempts| - 1]);
      (Reconciled(hash, op1, attempts[|attempts| - 1]), Republished(hash, op1, cm1, attempts[|attempts| - 1]))
  }

  /** The fallback ConfigMap, shared by the replicas. */
  class ConfigMap {
    var data: Option<Snapshot>

    constructor ()
      ensures data == None
    {
      data := None;
    }
  }

  class Operator {
    const hash: Hash
    var sentHash: Option<string>
    var cmHash: Option<string>
    var channel: Option<Snapshot>
    var ready: bool

    ghost function View(): OperatorState
      reads this
    {
      OperatorState(sentHash, cmHash, channel, ready)
    }

    constructor (hash: Hash)
      ensures this.hash == hash && View() == STARTED
    {
      this.hash := hash;
      sentHash, cmHash, channel, ready := None, None, None, false;
    }

    method Reconcile(a: Attempt, cm: ConfigMap)
      modifies this, cm
      ensures View() == Reconciled(hash, old(View()), a)
      ensures cm.data == Republished(hash, old(View()), old(cm.data), a)
    {
      if a.ListFailed? {
        return;
      }
      var result := C.Compile(a.input);
      if result.core.Some? {
        var snapshot := FromCore(hash, result.core.value);
        if sentHash != Some(snapshot.hash) {
          if a.serialises {
            channel := Some(snapshot);
            ready := true;
            sentHash := Some(snapshot.hash);
          }
        }
      }
      if a.leader {
        if result.core.Some? {
          var snapshot := FromCore(hash, result.core.value);
          if cmHash != Some(snapshot.hash) {
            if a.publishes {
              cm.data := Some(snapshot);
              cmHash := Some(snapshot.hash);
            }
          }
        }
      }
    }

    /** The loop, for as long as it is triggered. */
    method Run(attempts: seq<Attempt>, cm: ConfigMap)
      modifies this, cm
      ensures (View(), cm.data) == Turns(hash, old(View()), old(cm.data), attempts)
    {
      hide Reconciled, Republished;
      for i := 0 to |attempts|
        invariant (View(), cm.data) == Turns(hash, old(View()), old(cm.data), attempts[..i])
      {
        assert attempts[..i + 1][..i] == attempts[..i];
        Reconcile(attempts[i], cm);
      }
      assert attempts[..|attempts|] == attempts;
    }
  }

  // ---- the router ----

  datatype RouterState = RouterState(current: Option<Snapshot>, previous: Option<Snapshot>)

  /** A received snapshot replaces the current one when its hash differs. */
  function Accepted(r: RouterState, snapshot: Snapshot): RouterState {
    if r.current.None? || r.current.value.hash != snapshot.hash then RouterState(Some(snapshot), r.current) else r
  }

  /** What a chunk was parsed into, if it was; one that was not is logged and skipped. */
  function Taken(r: RouterState, chunk: Option<Snapshot>): RouterState {
    if chunk.Some? then Accepted(r, chunk.value) else r
  }

  /** A whole stream of chunks. */
  function AllTaken(r: RouterState, chunks: seq<Option<Snapshot>>): RouterState {
    if chunks == [] then r else Taken(AllTaken(r, chunks[..|chunks| - 1]), chunks[|chunks| - 1])
  }

  ghost function Held(holder: SnapshotHolder): RouterState
    reads holder
  {
    RouterState(holder.current, holder.previous)
  }

  class GrpcSource {
    const holder: SnapshotHolder

    constructor (holder: SnapshotHolder)
      ensures this.holder == holder
    {
      this.holder := holder;
    }

    method Receive(snapshot: Snapshot)
      modifies holder
      ensures Held(holder) == Accepted(old(Held(holder)), snapshot)
      ensures holder.IsReady()
    {
      var changed := holder.current.None? || holder.current.value.hash != snapshot.hash;
      if changed {
        holder.Store(snapshot);
      }
    }

    /** One connection: every chunk until the stream ends. */
    method WatchOnce(chunks: seq<Option<Snapshot>>)
      modifies holder
      ensures Held(holder) == AllTaken(old(Held(holder)), chunks)
      ensures old(holder.IsReady()) ==> holder.IsReady()
    {
      for i := 0 to |chunks|
        invariant Held(holder) == AllTaken(old(Held(holder)), chunks[..i])
        invariant old(holder.IsReady()) ==> holder.IsReady()
      {
        assert chunks[..i + 1][..i] == chunks[..i];
        if chunks[i].Some? {
          Receive(chunks[i].value);
        }
      }
      assert chunks[..|chunks|] == chunks;
    }
  }

  // ---- the compiled-file source ----

  /** What the poller remembers and what the router serves. */
  datatype Polling = Polling(last: int, router: RouterState)

  /**
   A file is looked at again when its modification time changed or nothing is served yet; a failed read keeps what
   there is.
   */
  function Polled(p: Polling, modified: int, read: Option<Snapshot>): Polling {
    if modified == p.last && p.router.current.Some? then p
    else Polling(modified, if read.Some? then Accepted(p.router, read.value) else p.router)
  }

  class CompiledFileSource {
    const holder: SnapshotHolder
    var last: int

    ghost function View(): Polling
      reads this, holder
    {
      Polling(last, Held(holder))
    }

    constructor (holder: SnapshotHolder, modified: int)
      ensures this.holder == holder && last == modified
    {
      this.holder := holder;
      last := modified;
    }

    method Poll(modified: int, read: Option<Snapshot>)
      modifies this, holder
      ensures View() == Polled(old(View()), modified, read)
      ensures old(holder.IsReady()) ==> holder.IsReady()
    {
      if modified == last && holder.current.Some? {
        return;
      }
      last := modified;
      if read.Some? {
        var changed := holder.current.None? || holder.current.value.hash != read.value.hash;
        if changed {
          holder.Store(read.value);
        }
      }
    }
  }

  /** What one poll finds: the file's modification time, and what reading the file would give. */
  datatype Look = Look(modified: int, read: Option<Snapshot>)

  /** The file is read once at startup; the poller starts from the modification time it finds when it begins. */
  function FileRun(startup: Option<Snapshot>, begun: int, polls: seq<Look>): Polling {
    if polls == [] then Polling(begun, RouterState(startup, None))
    else
      var look := polls[|polls| - 1];
      Polled(FileRun(startup, begun, polls[..|polls| - 1]), look.modified, look.read)
  }

  ghost predicate Serves(p: Polling, s: Snapshot) {
    p.router.current.Some? && p.router.current.value.hash == s.hash
  }

  ghost predicate NothingRead(startup: Option<Snapshot>, polls: seq<Look>) {
    startup.None? && forall look | look in polls :: look.read.None?
  }

  /** The poll after `front` reads the file: its time is not the one seen before, or nothing could be read so far. */
  ghost predicate Reads(startup: Option<Snapshot>, begun: int, front: seq<Look>, look: Look) {
    look.modified != (if front == [] then begun else front[|front| - 1].modified) || NothingRead(startup, front)
  }

  /** Poll `k` read the file and loaded a snapshot. */
  ghost predicate Loads(startup: Option<Snapshot>, begun: int, polls: seq<Look>, k: nat)
    requires k < |polls|
  {
    polls[k].read.Some? && Reads(startup, begun, polls[..k], polls[k])
  }

  ghost predicate LoadsNothing(startup: Option<Snapshot>, begun: int, polls: seq<Look>, from: nat) {
    forall k :: from <= k < |polls| ==> !Loads(startup, begun, polls, k)
  }

  /** The last thing loaded, by a poll or at startup, has the hash of `s`. */
  ghost predicate LastLoaded(startup: Option<Snapshot>, begun: int, polls: seq<Look>, s: Snapshot) {
    || (startup.Some? && startup.value.hash == s.hash && LoadsNothing(startup, begun, polls, 0))
    || exists k :: 0 <= k < |polls| && Loads(startup, begun, polls, k) && polls[k].read.value.hash == s.hash
                   && LoadsNothing(startup, begun, polls, k + 1)
  }

  lemma LoadsInFront(startup: Option<Snapshot>, begun: int, front: seq<Look>, look: Look)
    ensures forall k :: 0 <= k < |front| ==>
      (Loads(startup, begun, front + [look], k) <==> Loads(startup, begun, front, k))
    ensures Loads(startup, begun, front + [look], |front|) <==> look.read.Some? && Reads(startup, begun, front, look)
    ensures forall k :: 0 <= k <= |front| ==>
      (LoadsNothing(startup, begun, front + [look], k)
       <==> LoadsNothing(startup, begun, front, k) && !Loads(startup, begun, front + [look], |front|))
  {
    hide Reads;
    assert (front + [look])[..|front|] == front;
    forall k | 0 <= k < |front|
      ensures Loads(startup, begun, front + [look], k) <==> Loads(startup, begun, front, k)
    {
      assert (front + [look])[..k] == front[..k];
    }
  }

  lemma NothingAfter(startup: Option<Snapshot>, begun: int, polls: seq<Look>)
    ensures LoadsNothing(startup, begun, polls, |polls|)
  {}

  lemma LastLoadedStep(startup: Option<Snapshot>, begun: int, front: seq<Look>, look: Look, s: Snapshot)
    ensures LastLoaded(startup, begun, front + [look], s) <==>
      if look.read.Some? && Reads(startup, begun, front, look) then look.read.value.hash == s.hash
      else LastLoaded(startup, begun, front, s)
  {
    hide Loads, LoadsNothing, Reads;
    var polls := front + [look];
    LoadsInFront(startup, begun, front, look);
    NothingAfter(startup, begun, polls);
    assert polls[|front|] == look;
  }

  lemma OnePollMore(startup: Option<Snapshot>, begun: int, front: seq<Look>, look: Look)
    ensures FileRun(startup, begun, front + [look]) == Polled(FileRun(startup, begun, front), look.modified, look.read)
  {
    assert (front + [look])[..|front|] == front;
  }

  /** What the poller remembers and serves, told from the polls alone. */
  ghost predicate PollingTold(startup: Option<Snapshot>, begun: int, polls: seq<Look>, p: Polling, s: Snapshot) {
    && p.last == (if polls == [] then begun else polls[|polls| - 1].modified)
    && (p.router.current.None? <==> NothingRead(startup, polls))
    && (Serves(p, s) <==> LastLoaded(startup, begun, polls, s))
  }

  lemma PollKeepsTold(startup: Option<Snapshot>, begun: int, front: seq<Look>, p: Polling, look: Look, s: Snapshot)
    requires PollingTold(startup, begun, front, p, s)
    ensures PollingTold(startup, begun, front + [look], Polled(p, look.modified, look.read), s)
  {
    hide LastLoaded;
    LastLoadedStep(startup, begun, front, look, s);
    assert forall x :: x in front + [look] <==> x in front || x == look;
  }

  lemma {:induction false} PollingSoFar(startup: Option<Snapshot>, begun: int, polls: seq<Look>, s: Snapshot)
    ensures PollingTold(startup, begun, polls, FileRun(startup, begun, polls), s)
  {
    hide PollingTold, FileRun;
    if polls == [] {
      NothingPolled(startup, begun, s);
    } else {
      var front, look := polls[..|polls| - 1], polls[|polls| - 1];
      assert polls == front + [look];
      PollingSoFar(startup, begun, front, s);
      OnePollMore(startup, begun, front, look);
      PollKeepsTold(startup, begun, front, FileRun(startup, begun, front), look, s);
    }
  }

  lemma NothingPolled(startup: Option<Snapshot>, begun: int, s: Snapshot)
    ensures PollingTold(startup, begun, [], FileRun(startup, begun, []), s)
  {}

  /** Whatever the polls find, the router serves `s` exactly when `s` is what was loaded last. */
  lemma PolledFileIsServedExactly(startup: Option<Snapshot>, begun: int, polls: seq<Look>, s: Snapshot)
    ensures Serves(FileRun(startup, begun, polls), s) <==> LastLoaded(startup, begun, polls, s)
  {
    PollingSoFar(startup, begun, polls, s);
  }

  /**
   So a file is not always served: when the one poll that sees its new time cannot read it, no later poll
   does while the time stays, however well the file reads by then.
   */
  lemma {:induction false} FailedReadIsNotRetried(old_: Snapshot, s: Snapshot, begun: int, now: int, again: nat)
    requires now != begun
    ensures FileRun(Some(old_), begun, [Look(now, None)] + seq(again, _ => Look(now, Some(s)))).router
            == RouterState(Some(old_), None)
    ensures FileRun(Some(old_), begun, [Look(now, None)] + seq(again, _ => Look(now, Some(s)))).last == now
  {
    var polls := [Look(now, None)] + seq(again, _ => Look(now, Some(s)));
    if again == 0 {
      assert polls == [Look(now, None)] && polls[..0] == [];
    } else {
      FailedReadIsNotRetried(old_, s, begun, now, again - 1);
      assert polls[..|polls| - 1] == [Look(now, None)] + seq(again - 1, _ => Look(now, Some(s)));
    }
  }

  // ---- a file that can always be read or never, at each of its times ----

  /** What a file holds at each of its modification times; none when it cannot be read. */
  type FileHistory = int -> Option<Snapshot>

  ghost predicate Follows(file: FileHistory, polls: seq<Look>) {
    forall look | look in polls :: look.read == file(look.modified)
  }

  ghost predicate NeverChanged(begun: int, polls: seq<Look>) {
    forall look | look in polls :: look.modified == begun
  }

  /** What holds after the polls: `still` says that all of them saw the poller's first modification time. */
  ghost predicate PollingInv(
    file: FileHistory, startup: Option<Snapshot>, begun: int, p: Polling, still: bool, polled: bool
  ) {
    && (still && startup.Some? ==> p.router.current == startup)
    && (!still || (polled && startup.None?) ==> file(p.last).Some? ==> Serves(p, file(p.last).value))
    && (still ==> p.last == begun)
    && (!polled ==> still && p.router.current == startup)
  }

  lemma PollKeepsInv(
    file: FileHistory, startup: Option<Snapshot>, begun: int, p: Polling, still: bool, polled: bool, m: int)
    requires PollingInv(file, startup, begun, p, still, polled)
    ensures PollingInv(file, startup, begun, Polled(p, m, file(m)), still && m == begun, true)
    ensures Polled(p, m, file(m)).last == m
  {}

  lemma {:induction false} FollowingSoFar(file: FileHistory, startup: Option<Snapshot>, begun: int, polls: seq<Look>)
    requires Follows(file, polls)
    ensures PollingInv(file, startup, begun, FileRun(startup, begun, polls), NeverChanged(begun, polls), polls != [])
    ensures polls != [] ==> FileRun(startup, begun, polls).last == polls[|polls| - 1].modified
  {
    hide PollingInv, Polled, NeverChanged, FileRun;
    if polls == [] {
      NothingFollowed(file, startup, begun);
    } else {
      var front, look := polls[..|polls| - 1], polls[|polls| - 1];
      assert polls == front + [look];
      OnePollMore(startup, begun, front, look);
      FollowingSoFar(file, startup, begun, front);
      PollKeepsInv(file, startup, begun, FileRun(startup, begun, front), NeverChanged(begun, front), front != [],
                   look.modified);
      ChangedLast(begun, front, look);
    }
  }

  lemma NothingFollowed(file: FileHistory, startup: Option<Snapshot>, begun: int)
    ensures NeverChanged(begun, [])
    ensures PollingInv(file, startup, begun, FileRun(startup, begun, []), true, false)
  {}

  lemma ChangedLast(begun: int, front: seq<Look>, look: Look)
    ensures NeverChanged(begun, front + [look]) <==> NeverChanged(begun, front) && look.modified == begun
  {
    assert forall x :: x in front + [look] <==> x in front || x == look;
    assert look in front + [look];
    assert forall x | x in front :: x in front + [look];
  }

  /**
   When whether a read succeeds and what it gives depend on the modification time alone, the file is served exactly
   unless it changed between the read at startup and the poller's first look and has not changed since.
   */
  lemma SteadyFileIsServedExactly(file: FileHistory, startup: Option<Snapshot>, begun: int, polls: seq<Look>)
    requires Follows(file, polls) && polls != [] && polls[|polls| - 1].read.Some?
    ensures var now := polls[|polls| - 1].read.value;
      Serves(FileRun(startup, begun, polls), now) <==>
      !(NeverChanged(begun, polls) && startup.Some? && startup.value.hash != now.hash)
  {
    hide NeverChanged, FileRun;
    FollowingSoFar(file, startup, begun, polls);
    assert polls[|polls| - 1] in polls;
  }

  // ---- the system: one operator process, one router process ----

  /** A chunk on its way, with its place in the operator's send history. */
  datatype Chunk = Chunk(position: nat, snapshot: Snapshot)

  /**
   A subscription: how much of the history its receiver has seen, what is still in flight, and whether the last
   chunk that arrived could not be parsed.
   */
  datatype Subscription = Subscription(seen: nat, inFlight: seq<Chunk>, skipped: bool)

  datatype System = System(
    op: OperatorState,
    sends: seq<Snapshot>,
    stream: Option<Subscription>,
    router: RouterState,
    position: nat)

  /** `position` is the number of sends up to and including the one the router last parsed. */
  const INITIAL := System(STARTED, [], None, RouterState(None, None), 0)

  datatype Event = Reconcile(a: Attempt) | Connect | Disconnect | Yield | Deliver | Skip

  predicate Enabled(s: System, e: Event) {
    match e
    case Reconcile(_) => true
    case Connect => s.stream.None?
    case Disconnect => s.stream.Some?
    case Yield => s.stream.Some? && s.stream.value.seen < |s.sends|
    case Deliver => s.stream.Some? && s.stream.value.inFlight != []
    case Skip => s.stream.Some? && s.stream.value.inFlight != []
  }

  /**
   The stream yields the channel's latest value, leaving out those it missed; chunks in flight are lost on a
   disconnect. A chunk that arrives is either parsed and accepted or, when it cannot be parsed, skipped.
   */
  function Step(hash: Hash, s: System, e: Event): System {
    if !Enabled(s, e) then s else
      match e
      case Reconcile(a) =>
        s.(op := Reconciled(hash, s.op, a),
           sends := if Sends(hash, s.op, a) then s.sends + [Compiled(hash, a).value] else s.sends)
      case Connect => s.(stream := Some(Subscription(0, [], false)))
      case Disconnect => s.(stream := None)
      case Yield =>
        var u := s.stream.value;
        s.(stream := Some(u.(seen := |s.sends|, inFlight := u.inFlight + [Chunk(|s.sends|, s.sends[|s.sends| - 1])])))
      case Deliver =>
        var chunk := s.stream.value.inFlight[0];
        s.(stream := Some(s.stream.value.(inFlight := s.stream.value.inFlight[1..], skipped := false)),
           router := Accepted(s.router, chunk.snapshot), position := chunk.position)
      case Skip =>
        s.(stream := Some(s.stream.value.(inFlight := s.stream.value.inFlight[1..], skipped := true)))
  }

  function Run(hash: Hash, s: System, events: seq<Event>): System {
    if events == [] then s else Step(hash, Run(hash, s, events[..|events| - 1]), events[|events| - 1])
  }

  // ---- the invariant ----

  ghost predicate OperatorAgrees(s: System) {
    && s.op.channel == (if s.sends == [] then None else Some(s.sends[|s.sends| - 1]))
    && s.op.sentHash == (if s.sends == [] then None else Some(s.sends[|s.sends| - 1].hash))
    && (s.op.ready <==> s.sends != [])
  }

  ghost predicate SendsDiffer(s: System) {
    forall i :: 0 < i < |s.sends| ==> s.sends[i].hash != s.sends[i - 1].hash
  }

  /** The router serves a snapshot that was sent, with the hash of the send it last parsed. */
  ghost predicate RouterAgrees(s: System) {
    && s.position <= |s.sends|
    && (s.router.current.Some? <==> s.position > 0)
    && (s.position > 0 ==>
          s.router.current.value in s.sends && s.router.current.value.hash == s.sends[s.position - 1].hash)
  }

  ghost predicate ChunkAgrees(s: System, c: Chunk) {
    0 < c.position <= |s.sends| && s.position <= c.position && c.snapshot == s.sends[c.position - 1]
  }

  ghost predicate StreamAgrees(s: System, u: Subscription) {
    && u.seen <= |s.sends|
    && (forall i :: 0 <= i < |u.inFlight| ==> ChunkAgrees(s, u.inFlight[i]))
    && (forall i, j :: 0 <= i < j < |u.inFlight| ==> u.inFlight[i].position < u.inFlight[j].position)
    && (u.seen == 0 ==> u.inFlight == [] && !u.skipped)
    && (u.seen > 0 ==>
          if u.inFlight == [] then u.skipped || s.position == u.seen
          else u.inFlight[|u.inFlight| - 1].position == u.seen)
  }

  ghost predicate Inv(s: System) {
    && OperatorAgrees(s)
    && SendsDiffer(s)
    && RouterAgrees(s)
    && (s.stream.Some? ==> StreamAgrees(s, s.stream.value))
  }

  /** More sends leave what the router and its stream agree on as it was. */
  lemma SendsKeepRouter(s: System, s': System)
    requires s.sends <= s'.sends && s'.router == s.router && s'.position == s.position
    ensures RouterAgrees(s) ==> RouterAgrees(s')
    ensures forall u :: StreamAgrees(s, u) ==> StreamAgrees(s', u)
  {
    assert forall i :: 0 <= i < |s.sends| ==> s'.sends[i] == s.sends[i];
    forall u | StreamAgrees(s, u) ensures StreamAgrees(s', u) {
      forall i | 0 <= i < |u.inFlight| ensures ChunkAgrees(s', u.inFlight[i]) {
        assert ChunkAgrees(s, u.inFlight[i]);
      }
    }
  }

  lemma SendKeepsInv(hash: Hash, s: System, a: Attempt)
    requires Inv(s)
    ensures Inv(Step(hash, s, Reconcile(a)))
  {
    hide Compiled, RouterAgrees, StreamAgrees;
    SendsKeepRouter(s, Step(hash, s, Reconcile(a)));
  }

  lemma YieldKeepsInv(hash: Hash, s: System)
    requires Inv(s) && Enabled(s, Yield)
    ensures Inv(Step(hash, s, Yield))
  {
    var u, s' := s.stream.value, Step(hash, s, Yield);
    var c := Chunk(|s.sends|, s.sends[|s.sends| - 1]);
    assert ChunkAgrees(s', c);
    forall i | 0 <= i < |u.inFlight| ensures ChunkAgrees(s', u.inFlight[i]) && u.inFlight[i].position < c.position {
      assert ChunkAgrees(s, u.inFlight[i]);
    }
  }

  lemma DeliverKeepsInv(hash: Hash, s: System)
    requires Inv(s) && Enabled(s, Deliver)
    ensures Inv(Step(hash, s, Deliver))
    ensures s.position <= Step(hash, s, Deliver).position
  {
    var u, s' := s.stream.value, Step(hash, s, Deliver);
    assert ChunkAgrees(s, u.inFlight[0]);
    assert s.sends[u.inFlight[0].position - 1] in s.sends;
    forall i | 0 <= i < |u.inFlight[1..]| ensures ChunkAgrees(s', u.inFlight[1..][i]) {
      assert ChunkAgrees(s, u.inFlight[i + 1]);
    }
    assert u.inFlight != [];
    if |u.inFlight| > 1 {
      assert u.inFlight[1..][|u.inFlight| - 2] == u.inFlight[|u.inFlight| - 1];
    }
  }

  lemma SkipKeepsInv(hash: Hash, s: System)
    requires Inv(s) && Enabled(s, Skip)
    ensures Inv(Step(hash, s, Skip))
  {
    var u, s' := s.stream.value, Step(hash, s, Skip);
    forall i | 0 <= i < |u.inFlight[1..]| ensures ChunkAgrees(s', u.inFlight[1..][i]) {
      assert ChunkAgrees(s, u.inFlight[i + 1]);
    }
    if |u.inFlight| > 1 {
      assert u.inFlight[1..][|u.inFlight| - 2] == u.inFlight[|u.inFlight| - 1];
    }
  }

  /** Every step keeps the invariant, moves the router only forward, and takes no readiness back. */
  lemma StepKeepsInv(hash: Hash, s: System, e: Event)
    requires Inv(s)
    ensures Inv(Step(hash, s, e))
    ensures s.position <= Step(hash, s, e).position
    ensures s.router.current.Some? ==> Step(hash, s, e).router.current.Some?
    ensures s.op.ready ==> Step(hash, s, e).op.ready
    ensures s.sends <= Step(hash, s, e).sends
  {
    hide Compiled, OperatorAgrees, SendsDiffer, RouterAgrees, StreamAgrees;
    if Enabled(s, e) {
      match e
      case Reconcile(a) => SendKeepsInv(hash, s, a);
      case Connect => ConnectionKeepsInv(hash, s, e);
      case Disconnect => ConnectionKeepsInv(hash, s, e);
      case Yield => YieldKeepsInv(hash, s);
      case Deliver => DeliverKeepsInv(hash, s);
      case Skip => SkipKeepsInv(hash, s);
    }
  }

  lemma ConnectionKeepsInv(hash: Hash, s: System, e: Event)
    ensures Inv(s) && (e == Connect || e == Disconnect) ==> Inv(Step(hash, s, e))
  {}

  lemma {:induction false} RunKeepsInv(hash: Hash, events: seq<Event>)
    ensures Inv(Run(hash, INITIAL, events))
  {
    hide Step, Inv;
    if events == [] {
      InitialInv();
    } else {
      RunKeepsInv(hash, events[..|events| - 1]);
      StepKeepsInv(hash, Run(hash, INITIAL, events[..|events| - 1]), events[|events| - 1]);
    }
  }

  lemma InitialInv()
    ensures Inv(INITIAL)
  {}

  // ---- safety over whole runs ----

  /** Every send is a snapshot that one of the attempts of the run compiled. */
  ghost predicate WasCompiled(hash: Hash, events: seq<Event>, snapshot: Snapshot) {
    exists a :: Reconcile(a) in events && Compiled(hash, a) == Some(snapshot)
  }

  lemma {:induction false} SendsWereCompiled(hash: Hash, events: seq<Event>)
    ensures forall snapshot | snapshot in Run(hash, INITIAL, events).sends :: WasCompiled(hash, events, snapshot)
  {
    hide Compiled, Reconciled;
    if events != [] {
      var front, e := events[..|events| - 1], events[|events| - 1];
      assert events == front + [e];
      SendsWereCompiled(hash, front);
      var before, after := Run(hash, INITIAL, front), Run(hash, INITIAL, events);
      forall snapshot | snapshot in after.sends ensures WasCompiled(hash, events, snapshot) {
        if snapshot in before.sends {
          var a :| Reconcile(a) in front && Compiled(hash, a) == Some(snapshot);
          assert Reconcile(a) in events;
        } else {
          assert e.Reconcile? && Sends(hash, before.op, e.a)
            && after.sends == before.sends + [Compiled(hash, e.a).value];
          assert Reconcile(e.a) in events;
        }
      }
    }
  }

  /** Whatever the run, the router serves only a snapshot that compiled, and so one the engine's theorems hold on. */
  lemma ServedIsSound(hash: Hash, events: seq<Event>)
    ensures var current := Run(hash, INITIAL, events).router.current;
      current.Some? ==> WasCompiled(hash, events, current.value) && CompiledSnapshots.SoundCore(current.value.core)
  {
    hide Run, C.Compile, CompiledSnapshots.SoundCore;
    RunKeepsInv(hash, events);
    SendsWereCompiled(hash, events);
    var current := Run(hash, INITIAL, events).router.current;
    if current.Some? {
      assert WasCompiled(hash, events, current.value);
      var a :| Reconcile(a) in events && Compiled(hash, a) == Some(current.value);
      CompiledSnapshots.CompiledIsSound(a.input);
    }
  }

  /** Between any two moments of a run the router never goes back in the send history and no readiness is lost. */
  lemma {:induction false} NeverGoesBack(hash: Hash, events: seq<Event>, i: nat, j: nat)
    requires i <= j <= |events|
    ensures var then_, now := Run(hash, INITIAL, events[..i]), Run(hash, INITIAL, events[..j]);
      && then_.position <= now.position
      && (then_.router.current.Some? ==> now.router.current.Some?)
      && (then_.op.ready ==> now.op.ready)
      && then_.sends <= now.sends
    decreases j
  {
    hide Step, Inv;
    if i < j {
      NeverGoesBack(hash, events, i, j - 1);
      assert events[..j][..j - 1] == events[..j - 1];
      RunKeepsInv(hash, events[..j - 1]);
      StepKeepsInv(hash, Run(hash, INITIAL, events[..j - 1]), events[j - 1]);
    }
  }

  /** In every run consecutive sends differ in hash. */
  lemma ConsecutiveSendsDiffer(hash: Hash, events: seq<Event>, i: nat)
    requires 0 < i < |Run(hash, INITIAL, events).sends|
    ensures Run(hash, INITIAL, events).sends[i].hash != Run(hash, INITIAL, events).sends[i - 1].hash
  {
    hide Run;
    RunKeepsInv(hash, events);
  }

  // ---- convergence ----

  /** Connected, everything seen, nothing in flight. */
  predicate Quiet(s: System) {
    s.stream.Some? && s.stream.value.seen == |s.sends| && s.stream.value.inFlight == []
  }

  /** Quiet, but the last chunk to arrive on this stream could not be parsed. */
  predicate Stalled(s: System) {
    Quiet(s) && s.stream.value.skipped
  }

  /** The router's hash is the operator's `sent_hash`, and its snapshot the operator's up to a collision. */
  ghost predicate InAgreement(hash: Hash, s: System) {
    && s.router.current.Some? && s.op.sentHash == Some(s.router.current.value.hash)
    && (s.router.current == s.op.channel
        || (s.op.channel.Some? && s.router.current.value.core != s.op.channel.value.core
            && hash(s.router.current.value.core) == hash(s.op.channel.value.core)))
  }

  /** Which send the chunk bore that was parsed last in a run, counted from one; none if no chunk was parsed. */
  function LastParsed(hash: Hash, events: seq<Event>): nat {
    if events == [] then 0
    else
      var front, e := events[..|events| - 1], events[|events| - 1];
      var before := Run(hash, INITIAL, front);
      if e == Deliver && Enabled(before, e) then before.stream.value.inFlight[0].position else LastParsed(hash, front)
  }

  lemma {:induction false} LastParsedIsPosition(hash: Hash, events: seq<Event>)
    ensures LastParsed(hash, events) == Run(hash, INITIAL, events).position
  {
    hide Compiled, Reconciled, Accepted, Sends;
    if events != [] {
      LastParsedIsPosition(hash, events[..|events| - 1]);
    }
  }

  /** Some chunk was parsed, and the send that the last of them bore has the hash of the last send. */
  predicate LastParsedIsLatest(hash: Hash, events: seq<Event>) {
    var n, sends := LastParsed(hash, events), Run(hash, INITIAL, events).sends;
    0 < n <= |sends| && sends[n - 1].hash == sends[|sends| - 1].hash
  }

  /** At any moment of any run, router and operator agree exactly when the chunk parsed last bore the latest hash. */
  lemma AgreesExactly(hash: Hash, events: seq<Event>)
    ensures var s := Run(hash, INITIAL, events);
      s.sends != [] ==> (InAgreement(hash, s) <==> LastParsedIsLatest(hash, events))
  {
    hide Run, LastParsed, C.Compile;
    RunKeepsInv(hash, events);
    SendsWereCompiled(hash, events);
    LastParsedIsPosition(hash, events);
    var s := Run(hash, INITIAL, events);
    if s.sends != [] && s.position > 0 {
      assert s.sends[|s.sends| - 1] in s.sends;
      assert WasCompiled(hash, events, s.router.current.value) && WasCompiled(hash, events, s.sends[|s.sends| - 1]);
    }
  }

  lemma QuietIsLatest(hash: Hash, events: seq<Event>)
    ensures var s := Run(hash, INITIAL, events);
      Quiet(s) && !Stalled(s) && s.sends != [] ==> LastParsedIsLatest(hash, events)
  {
    hide Run, LastParsed;
    RunKeepsInv(hash, events);
    LastParsedIsPosition(hash, events);
  }

  /**
   A quiet run agrees exactly when it did not stall, or when what the router parsed before it stalled already bore
   the latest hash.
   */
  lemma QuietAgreesExactly(hash: Hash, events: seq<Event>)
    ensures var s := Run(hash, INITIAL, events);
      Quiet(s) && s.sends != [] ==> (InAgreement(hash, s) <==> !Stalled(s) || LastParsedIsLatest(hash, events))
  {
    hide Run, LastParsedIsLatest, InAgreement, Quiet, Stalled;
    AgreesExactly(hash, events);
    QuietIsLatest(hash, events);
  }

  /** Once a run is quiet, and did not stall, router and operator agree. */
  lemma QuietAgrees(hash: Hash, events: seq<Event>)
    ensures var s := Run(hash, INITIAL, events);
      Quiet(s) && !Stalled(s) && s.sends != [] ==> InAgreement(hash, s)
  {
    hide Run, LastParsedIsLatest, InAgreement, Quiet, Stalled;
    QuietAgreesExactly(hash, events);
  }

  /** A step of the stream that is not a failure. */
  predicate Delivers(s: System, e: Event) {
    (e == Connect || e == Yield || e == Deliver) && Enabled(s, e)
  }

  /** How far a system is from being quiet. */
  function Distance(s: System): nat {
    if s.stream.None? then 3 else |s.stream.value.inFlight| + (if s.stream.value.seen < |s.sends| then 2 else 0)
  }

  /** Every delivering step brings the system closer, and while it is not quiet there is one to take. */
  lemma DeliveryProgresses(hash: Hash, s: System, e: Event)
    requires Inv(s)
    ensures Quiet(s) <==> Distance(s) == 0
    ensures Delivers(s, e) ==> Distance(Step(hash, s, e)) < Distance(s)
    ensures !Quiet(s) ==> Delivers(s, Connect) || Delivers(s, Yield) || Delivers(s, Deliver)
  {}

  /** Every event of the sequence is a delivering step where it is taken. */
  ghost predicate AllDeliver(hash: Hash, s: System, events: seq<Event>) {
    forall i :: 0 <= i < |events| ==> Delivers(Run(hash, s, events[..i]), events[i])
  }

  /** With the operator quiet and the stream up, the router converges within a bounded number of steps. */
  lemma {:induction false} Converges(hash: Hash, s: System, events: seq<Event>)
    requires Inv(s) && AllDeliver(hash, s, events)
    ensures Inv(Run(hash, s, events))
    ensures |events| + Distance(Run(hash, s, events)) <= Distance(s)
    ensures Run(hash, s, events).sends == s.sends
  {
    hide Inv;
    if events != [] {
      var front, e := events[..|events| - 1], events[|events| - 1];
      forall i | 0 <= i < |front| ensures Delivers(Run(hash, s, front[..i]), front[i]) {
        assert front[..i] == events[..i] && front[i] == events[i];
      }
      Converges(hash, s, front);
      assert Delivers(Run(hash, s, events[..|front|]), events[|front|]);
      DeliveryProgresses(hash, Run(hash, s, front), e);
      StepKeepsInv(hash, Run(hash, s, front), e);
    }
  }

  lemma {:induction false} RunsOn(hash: Hash, s: System, events: seq<Event>, more: seq<Event>)
    ensures Run(hash, s, events + more) == Run(hash, Run(hash, s, events), more)
  {
    hide Step;
    if more == [] {
      assert events + more == events;
    } else {
      var all := events + more;
      assert all[..|all| - 1] == events + more[..|more| - 1];
      RunsOn(hash, s, events, more[..|more| - 1]);
    }
  }

  /** A state nothing more can be delivered in. */
  predicate Exhausted(s: System) {
    !Delivers(s, Connect) && !Delivers(s, Yield) && !Delivers(s, Deliver)
  }

  lemma {:induction false} StallIsOld(hash: Hash, s: System, events: seq<Event>)
    requires Inv(s) && AllDeliver(hash, s, events)
    ensures Run(hash, s, events).op == s.op
    ensures events != [] ==> !Stalled(Run(hash, s, events))
    ensures events == [] ==> Run(hash, s, events) == s
  {
    hide Inv;
    if events != [] {
      var front, e := events[..|events| - 1], events[|events| - 1];
      forall i | 0 <= i < |front| ensures Delivers(Run(hash, s, front[..i]), front[i]) {
        assert front[..i] == events[..i] && front[i] == events[i];
      }
      StallIsOld(hash, s, front);
      assert Delivers(Run(hash, s, events[..|front|]), events[|front|]);
    }
  }

  /**
   From every state a run can reach, delivering whatever can be delivered takes at most `Distance` steps. Then router
   and operator agree exactly if that state had not stalled, or the chunk parsed last by then bore the latest hash;
   a state that has stalled stays as it is.
   */
  lemma DeliveryConverges(hash: Hash, events: seq<Event>, more: seq<Event>)
    requires AllDeliver(hash, Run(hash, INITIAL, events), more)
    ensures var s, end := Run(hash, INITIAL, events), Run(hash, INITIAL, events + more);
      && |more| <= Distance(s) && end.op == s.op
      && (Exhausted(end) ==> Quiet(end))
      && (Exhausted(end) && s.sends != [] ==>
            (InAgreement(hash, end) <==> !Stalled(s) || LastParsedIsLatest(hash, events)))
      && (Stalled(s) ==> end == s)
  {
    hide Run, Inv, InAgreement, AllDeliver, Step, LastParsedIsLatest;
    var s := Run(hash, INITIAL, events);
    RunsOn(hash, INITIAL, events, more);
    RunKeepsInv(hash, events);
    Converges(hash, s, more);
    StallIsOld(hash, s, more);
    var end := Run(hash, s, more);
    DeliveryProgresses(hash, end, Connect);
    QuietAgrees(hash, events + more);
    AgreesExactly(hash, events);
  }

  lemma OneStep(hash: Hash, s: System, e: Event)
    ensures Run(hash, s, [e]) == Step(hash, s, e)
  {
    assert [e][..0] == [];
  }

  /** A snapshot is sent and yielded, and its chunk arrives: `arrival` is `Deliver` or `Skip`. */
  lemma SendAndArrive(hash: Hash, s: System, a: Attempt, arrival: Event)
    requires s.stream.Some? && s.stream.value.inFlight == [] && s.stream.value.seen <= |s.sends|
    requires Sends(hash, s.op, a)
    ensures arrival.Deliver? || arrival.Skip? ==>
      Run(hash, s, [Reconcile(a), Yield, arrival]) == System(
        Reconciled(hash, s.op, a), s.sends + [Compiled(hash, a).value],
        Some(Subscription(|s.sends| + 1, [], arrival.Skip?)),
        if arrival.Skip? then s.router else Accepted(s.router, Compiled(hash, a).value),
        if arrival.Skip? then s.position else |s.sends| + 1)
  {
    hide Run, Compiled, Accepted, Reconciled;
    assert [Reconcile(a), Yield, arrival] == [Reconcile(a)] + ([Yield] + [arrival]);
    RunsOn(hash, s, [Reconcile(a)], [Yield] + [arrival]);
    OneStep(hash, s, Reconcile(a));
    var c := Compiled(hash, a).value;
    var sent := System(Reconciled(hash, s.op, a), s.sends + [c], s.stream, s.router, s.position);
    assert Step(hash, s, Reconcile(a)) == sent;
    RunsOn(hash, sent, [Yield], [arrival]);
    OneStep(hash, sent, Yield);
    YieldsTo(hash, sent);
    OneStep(hash, Step(hash, sent, Yield), arrival);
    assert [Chunk(|s.sends| + 1, c)][1..] == [];
  }

  lemma YieldsTo(hash: Hash, s: System)
    requires s.stream.Some? && s.stream.value.inFlight == [] && Enabled(s, Yield)
    ensures Step(hash, s, Yield)
            == s.(stream := Some(s.stream.value.(seen := |s.sends|,
                                                 inFlight := [Chunk(|s.sends|, s.sends[|s.sends| - 1])])))
  {
    assert [] + [Chunk(|s.sends|, s.sends[|s.sends| - 1])] == [Chunk(|s.sends|, s.sends[|s.sends| - 1])];
  }

  /** The exception is needed: a chunk that cannot be parsed is not asked for again on the same stream. */
  lemma SkippedChunkIsNotRetried(hash: Hash, x: C.CompileInput, y: C.CompileInput)
    requires C.Compile(x).core.Some? && C.Compile(y).core.Some?
    requires hash(C.Compile(x).core.value) != hash(C.Compile(y).core.value)
    ensures var a, b := Listed(x, true, false, false), Listed(y, true, false, false);
      var s := Run(hash, INITIAL, [Connect] + ([Reconcile(a), Yield, Deliver] + [Reconcile(b), Yield, Skip]));
      && Stalled(s) && Exhausted(s)
      && s.router.current == Some(FromCore(hash, C.Compile(x).core.value))
      && s.op.channel == Some(FromCore(hash, C.Compile(y).core.value))
      && !InAgreement(hash, s)
  {
    hide C.Compile, Run, LastParsed, InAgreement;
    var a, b := Listed(x, true, false, false), Listed(y, true, false, false);
    var events := [Connect] + ([Reconcile(a), Yield, Deliver] + [Reconcile(b), Yield, Skip]);
    RunsOn(hash, INITIAL, [Connect], [Reconcile(a), Yield, Deliver] + [Reconcile(b), Yield, Skip]);
    OneStep(hash, INITIAL, Connect);
    var connected := Step(hash, INITIAL, Connect);
    RunsOn(hash, connected, [Reconcile(a), Yield, Deliver], [Reconcile(b), Yield, Skip]);
    SendAndArrive(hash, connected, a, Deliver);
    var first := Run(hash, connected, [Reconcile(a), Yield, Deliver]);
    SendAndArrive(hash, first, b, Skip);
    LastParsedIsPosition(hash, events);
    AgreesExactly(hash, events);
  }

  /**
   And it is not the stall alone that decides: a router that has the latest snapshot keeps it when a repeat of its
   chunk cannot be parsed.
   */
  lemma SkippedRepeatIsHarmless(hash: Hash, x: C.CompileInput)
    requires C.Compile(x).core.Some?
    ensures var a := Listed(x, true, false, false);
      var s := Run(hash, INITIAL, [Connect] + ([Reconcile(a), Yield, Deliver] + [Disconnect, Connect, Yield, Skip]));
      Stalled(s) && InAgreement(hash, s)
  {
    hide C.Compile, Run, LastParsed, InAgreement, Accepted;
    var a := Listed(x, true, false, false);
    var events := [Connect] + ([Reconcile(a), Yield, Deliver] + [Disconnect, Connect, Yield, Skip]);
    RunsOn(hash, INITIAL, [Connect], [Reconcile(a), Yield, Deliver] + [Disconnect, Connect, Yield, Skip]);
    OneStep(hash, INITIAL, Connect);
    var connected := Step(hash, INITIAL, Connect);
    RunsOn(hash, connected, [Reconcile(a), Yield, Deliver], [Disconnect, Connect, Yield, Skip]);
    SendAndArrive(hash, connected, a, Deliver);
    RepeatIsSkipped(hash, Run(hash, connected, [Reconcile(a), Yield, Deliver]));
    LastParsedIsPosition(hash, events);
    AgreesExactly(hash, events);
  }

  lemma RepeatIsSkipped(hash: Hash, s: System)
    requires s.stream.Some? && s.sends != []
    ensures Run(hash, s, [Disconnect, Connect, Yield, Skip]) == s.(stream := Some(Subscription(|s.sends|, [], true)))
  {
    hide Run;
    assert [Disconnect, Connect, Yield, Skip] == [Disconnect] + ([Connect] + ([Yield] + [Skip]));
    RunsOn(hash, s, [Disconnect], [Connect] + ([Yield] + [Skip]));
    OneStep(hash, s, Disconnect);
    var off := s.(stream := None);
    RunsOn(hash, off, [Connect], [Yield] + [Skip]);
    OneStep(hash, off, Connect);
    var again := s.(stream := Some(Subscription(0, [], false)));
    RunsOn(hash, again, [Yield], [Skip]);
    OneStep(hash, again, Yield);
    YieldsTo(hash, again);
    var yielded := Step(hash, again, Yield);
    OneStep(hash, yielded, Skip);
    assert yielded.stream.value.inFlight[1..] == [];
  }

  // ---- the fallback ConfigMap ----

  /** Replicas that share a ConfigMap, and which of them wrote it last. */
  datatype Cluster = Cluster(ops: seq<OperatorState>, cm: Option<Snapshot>, writer: Option<nat>)

  function Act(hash: Hash, c: Cluster, i: nat, a: Attempt): Cluster
    requires i < |c.ops|
  {
    Cluster(c.ops[i := Reconciled(hash, c.ops[i], a)], Republished(hash, c.ops[i], c.cm, a),
            if Publishes(hash, c.ops[i], a) then Some(i) else c.writer)
  }

  /** Only the last writer's memory of what it published is known to be right. */
  ghost predicate ClusterInv(c: Cluster) {
    && (c.writer.Some? ==>
          c.writer.value < |c.ops| && c.cm.Some? && c.ops[c.writer.value].cmHash == Some(c.cm.value.hash))
    && (c.writer.None? ==> c.cm.None? && forall i :: 0 <= i < |c.ops| ==> c.ops[i].cmHash == None)
  }

  lemma ActKeepsInv(hash: Hash, c: Cluster, i: nat, a: Attempt)
    requires i < |c.ops| && ClusterInv(c)
    ensures ClusterInv(Act(hash, c, i, a))
  {
    hide Compiled;
  }

  /** The turn should leave the ConfigMap holding what this replica just compiled. */
  ghost predicate Fresh(hash: Hash, c: Cluster, a: Attempt) {
    Compiled(hash, a).Some? && c.cm.Some? && c.cm.value.hash == Compiled(hash, a).value.hash
  }

  /** Exactly when a leading turn whose write would succeed leaves the ConfigMap fresh. */
  lemma FreshExactly(hash: Hash, c: Cluster, i: nat, a: Attempt)
    requires i < |c.ops| && a.Listed? && a.leader && a.publishes && Compiled(hash, a).Some?
    ensures Fresh(hash, Act(hash, c, i, a), a) <==>
      c.ops[i].cmHash != Some(Compiled(hash, a).value.hash) || Fresh(hash, c, a)
  {
    hide Compiled;
  }

  datatype Turn = Turn(replica: nat, attempt: Attempt)

  function History(hash: Hash, c: Cluster, turns: seq<Turn>): Cluster
    requires forall k :: 0 <= k < |turns| ==> turns[k].replica < |c.ops|
    ensures |History(hash, c, turns).ops| == |c.ops|
  {
    if turns == [] then c else
      var last := turns[|turns| - 1];
      Act(hash, History(hash, c, turns[..|turns| - 1]), last.replica, last.attempt)
  }

  function Fleet(n: nat): Cluster {
    Cluster(seq(n, i => STARTED), None, None)
  }

  lemma {:induction false} HistoryKeepsInv(hash: Hash, n: nat, turns: seq<Turn>)
    requires forall k :: 0 <= k < |turns| ==> turns[k].replica < n
    ensures ClusterInv(History(hash, Fleet(n), turns))
  {
    hide ClusterInv, Act;
    if turns == [] {
      FleetInv(n);
    } else {
      var front := turns[..|turns| - 1];
      HistoryKeepsInv(hash, n, front);
      ActKeepsInv(hash, History(hash, Fleet(n), front), turns[|turns| - 1].replica, turns[|turns| - 1].attempt);
    }
  }

  lemma FleetInv(n: nat)
    ensures ClusterInv(Fleet(n))
  {}

  /** Only replica `i` ever leads. */
  ghost predicate OnlyLeads(turns: seq<Turn>, i: nat) {
    forall k :: 0 <= k < |turns| && turns[k].attempt.Listed? && turns[k].attempt.leader ==> turns[k].replica == i
  }

  lemma {:induction false} SoleLeaderIsWriter(hash: Hash, n: nat, turns: seq<Turn>, i: nat)
    requires forall k :: 0 <= k < |turns| ==> turns[k].replica < n
    requires i < n && OnlyLeads(turns, i)
    ensures var c := History(hash, Fleet(n), turns); c.writer.None? || c.writer == Some(i)
  {
    hide C.Compile, Reconciled, Republished;
    if turns != [] {
      SoleLeaderIsWriter(hash, n, turns[..|turns| - 1], i);
    }
  }

  /** With one publishing replica the ConfigMap is fresh after every leading turn whose write would succeed. */
  lemma {:induction false} SolePublisherStaysFresh(hash: Hash, n: nat, turns: seq<Turn>, i: nat, a: Attempt)
    requires forall k :: 0 <= k < |turns| ==> turns[k].replica < n
    requires i < n && OnlyLeads(turns, i)
    requires a.Listed? && a.leader && a.publishes && Compiled(hash, a).Some?
    ensures Fresh(hash, Act(hash, History(hash, Fleet(n), turns), i, a), a)
  {
    hide Act, Compiled;
    HistoryKeepsInv(hash, n, turns);
    SoleLeaderIsWriter(hash, n, turns, i);
    FreshExactly(hash, History(hash, Fleet(n), turns), i, a);
  }

  /**
   With two it need not be: a replica that leads again after another published remembers its own last
   publication, skips the write, and leaves the other's snapshot in place.
   */
  lemma TwoPublishersGoStale(hash: Hash, x: C.CompileInput, y: C.CompileInput)
    requires C.Compile(x).core.Some? && C.Compile(y).core.Some?
    requires hash(C.Compile(x).core.value) != hash(C.Compile(y).core.value)
    ensures var a, b := Listed(x, true, true, true), Listed(y, true, true, true);
      var c := History(hash, Fleet(2), [Turn(0, a), Turn(1, b)]);
      Fresh(hash, c, b) && !Fresh(hash, Act(hash, c, 0, a), a)
  {
    hide C.Compile;
    var a, b := Listed(x, true, true, true), Listed(y, true, true, true);
    var turns := [Turn(0, a), Turn(1, b)];
    assert turns[..1] == [Turn(0, a)];
    assert History(hash, Fleet(2), turns[..1]) == Act(hash, Fleet(2), 0, a);
    assert History(hash, Fleet(2), turns) == Act(hash, Act(hash, Fleet(2), 0, a), 1, b);
  }
}
