/**
 * The LoadAssetBundle coroutine of KAssetBundleLoader as a poll-driven state machine:
 * one Resume is one resumption by the engine's scheduler, given what the bytes loader,
 * the bundle parser and the base class's disposal flag report at that moment.
 */
module LoadCoroutine {
  import opened Wrappers
  import opened LoaderModes

  newtype byte = x: int | 0 <= x < 256

  /** An AssetBundle produced by the parser; its contents are not modelled. */
  datatype Bundle = Bundle(id: nat)

  /** A KAssetBundleParser as constructed: the resource url and the bytes it was given. */
  datatype Parser = Parser(url: string, bytes: seq<byte>)

  /** Where the coroutine is suspended: in the bytes-wait loop, in the decode loop, or ended. */
  datatype Phase = WaitingBytes | Decoding | Finished

  /** What the bytes loader reports: IsCompleted, IsSuccess and Bytes. */
  datatype BytesPoll = BytesPoll(isCompleted: bool, isSuccess: bool, bytes: seq<byte>)

  /** What the bundle parser reports: IsFinished, Progress and Bundle (None is null). */
  datatype ParserPoll = ParserPoll(isFinished: bool, progress: real, bundle: Option<Bundle>)

  /** Everything one resumption reads, each property read once. */
  datatype Poll = Poll(bytesLoader: BytesPoll, parser: ParserPoll, isReadyDisposed: bool)

  /** The observable side effects, in the order the loader performs them. */
  datatype Event =
    | NewLoaderAnnounced(url: string)
    | BytesLoaderRequested(url: string, pathType: InAppPathType, mode: LoaderMode)
    | ErrorEventFired
    | BytesRead(bytes: seq<byte>)
    | ProgressSet(value: real)
    | BytesLoaderReleased
    | ParserCreated(parser: Parser)
    | FinishedWith(result: Option<Bundle>)

  /**
   * The loader's state: its resolved url, mode and path type, the coroutine's phase, Progress,
   * the BundleParser field, the result handed to OnFinish, how often the error event fired,
   * whether the bytes loader was released, the force flags of every parser Dispose call, and
   * the trace of side effects so far.
   */
  datatype Loader = Loader(
    url: string,
    mode: LoaderMode,
    pathType: InAppPathType,
    phase: Phase,
    progress: real,
    parser: Option<Parser>,
    result: Option<Bundle>,
    errorEvents: nat,
    bytesLoaderReleased: bool,
    parserDisposals: seq<bool>,
    trace: seq<Event>)

  /** The effects of Init before the coroutine's first poll. */
  function Prologue(url: string, pathType: InAppPathType, mode: LoaderMode): seq<Event> {
    [NewLoaderAnnounced(url), BytesLoaderRequested(url, pathType, mode)]
  }

  /** The effects of a successful fetch, before the parser is first polled. */
  function Handoff(p: Parser): seq<Event> {
    [BytesRead(p.bytes), ProgressSet(0.5), BytesLoaderReleased, ParserCreated(p)]
  }

  /** The loader just after Init: resolved, the bytes loader requested, nothing polled yet. */
  function Start(url: string, requested: LoaderMode, defaultPathType: InAppPathType): Loader {
    var r := Resolve(requested, defaultPathType);
    Loader(url, r.mode, r.pathType, WaitingBytes, 0.0, None, None, 0, false, [],
           Prologue(url, r.pathType, r.mode))
  }

  /** OnFinish: record the result; the coroutine ends. */
  function Finish(s: Loader, result: Option<Bundle>): Loader {
    s.(phase := Finished, result := result, trace := s.trace + [FinishedWith(result)])
  }

  /** One test of the decode loop's condition and, if the parser is unfinished, one iteration. */
  function PollParser(s: Loader, p: Poll): Loader {
    if !p.parser.isFinished then
      if p.isReadyDisposed then Finish(s, None)
      else
        var v := p.parser.progress / 2.0 + 0.5;
        s.(progress := v, trace := s.trace + [ProgressSet(v)])
    else
      Finish(s.(progress := 1.0, trace := s.trace + [ProgressSet(1.0)]), p.parser.bundle)
  }

  /** One resumption of LoadAssetBundle. An ended coroutine is not resumed: nothing changes. */
  function Resume(s: Loader, p: Poll): Loader {
    match s.phase
    case Finished => s
    case WaitingBytes =>
      if !p.bytesLoader.isCompleted then s
      else if !p.bytesLoader.isSuccess then
        Finish(s.(errorEvents := s.errorEvents + 1, trace := s.trace + [ErrorEventFired]), None)
      else
        var parser := Parser(s.url, p.bytesLoader.bytes);
        PollParser(s.(progress := 0.5, bytesLoaderReleased := true, parser := Some(parser),
                      phase := Decoding, trace := s.trace + Handoff(parser)), p)
    case Decoding => PollParser(s, p)
  }

  /** DoDispose: Dispose(false) on the parser, if one was created. */
  function Dispose(s: Loader): Loader {
    if s.parser.Some? then s.(parserDisposals := s.parserDisposals + [false]) else s
  }

  /** What can happen to a loader: the scheduler resumes its coroutine, or the base class disposes it. */
  datatype Action = Resumed(poll: Poll) | DoDisposeCalled

  function Apply(s: Loader, a: Action): Loader {
    match a
    case Resumed(p) => Resume(s, p)
    case DoDisposeCalled => Dispose(s)
  }

  /** The loader after a sequence of actions, the last one applied last. */
  function Run(s: Loader, actions: seq<Action>): Loader
    decreases |actions|
  {
    if actions == [] then s else Apply(Run(s, actions[..|actions| - 1]), actions[|actions| - 1])
  }

  predicate AllProgressSets(t: seq<Event>) {
    forall i :: 0 <= i < |t| ==> t[i].ProgressSet?
  }

  /**
   * The invariant of every loader that Init created: which fields go with which phase, and the
   * shape of the trace. The trace is the Init prologue; then either the error event and a null
   * finish, or the hand-off (read bytes, progress 0.5, release, construct the parser), progress
   * updates, and at most one finish, last.
   */
  predicate Inv(s: Loader) {
    var pro := Prologue(s.url, s.pathType, s.mode);
    (forall i :: 0 <= i < |s.parserDisposals| ==> !s.parserDisposals[i]) &&
    (s.parserDisposals != [] ==> s.parser.Some?) &&
    (s.parser.Some? ==> s.parser.value.url == s.url) &&
    match s.phase
    case WaitingBytes =>
      s.trace == pro && s.parser.None? && s.result.None? && s.errorEvents == 0 && !s.bytesLoaderReleased
    case Decoding =>
      s.parser.Some? && s.result.None? && s.errorEvents == 0 && s.bytesLoaderReleased &&
      |s.trace| >= 6 && s.trace[..6] == pro + Handoff(s.parser.value) && AllProgressSets(s.trace[6..])
    case Finished =>
      if s.parser.None? then
        s.trace == pro + [ErrorEventFired, FinishedWith(None)] && s.result.None? &&
        s.errorEvents == 1 && !s.bytesLoaderReleased
      else
        s.errorEvents == 0 && s.bytesLoaderReleased &&
        |s.trace| >= 7 && s.trace[..6] == pro + Handoff(s.parser.value) &&
        AllProgressSets(s.trace[6..|s.trace| - 1]) && s.trace[|s.trace| - 1] == FinishedWith(s.result)
  }

  /** Progress bounds, given parser progress in [0, 1]: 0 until the bytes arrive, then in [0.5, 1]. */
  predicate ProgressOk(s: Loader) {
    0.0 <= s.progress <= 1.0 &&
    (s.phase == WaitingBytes || s.errorEvents == 1 ==> s.progress == 0.0) &&
    (s.parser.Some? ==> 0.5 <= s.progress)
  }

  predicate PollInRange(p: Poll) {
    0.0 <= p.parser.progress <= 1.0
  }

  predicate PollsInRange(actions: seq<Action>) {
    forall i :: 0 <= i < |actions| && actions[i].Resumed? ==> PollInRange(actions[i].poll)
  }

  /** The parser's reported progress never goes down from one resumption to a later one. */
  predicate ParserNonDecreasing(actions: seq<Action>) {
    forall i, j :: 0 <= i < j < |actions| && actions[i].Resumed? && actions[j].Resumed? ==>
      actions[i].poll.parser.progress <= actions[j].poll.parser.progress
  }

  // ----- Init and loading start -----

  /** Loading starts whatever Init logged: the bytes loader is requested with the resolved path type and mode. */
  lemma LoadingAlwaysStarts(url: string, requested: LoaderMode, d: InAppPathType)
    ensures var s := Start(url, requested, d); var r := Resolve(requested, d);
      s.phase == WaitingBytes && s.mode == r.mode && s.pathType == r.pathType &&
      s.trace == [NewLoaderAnnounced(url), BytesLoaderRequested(url, r.pathType, r.mode)]
    ensures Inv(Start(url, requested, d)) && ProgressOk(Start(url, requested, d))
  {
  }

  // ----- one resumption -----

  /** While the bytes are not complete nothing happens; disposal is never looked at in the bytes-wait loop. */
  lemma BytesWaitIgnoresDisposal(s: Loader, p: Poll)
    requires s.phase == WaitingBytes
    ensures !p.bytesLoader.isCompleted ==> Resume(s, p) == s
    ensures !(p.bytesLoader.isCompleted && p.bytesLoader.isSuccess) ==>
      Resume(s, p) == Resume(s, p.(isReadyDisposed := !p.isReadyDisposed))
  {
  }

  /** A failed fetch fires the error event once, then finishes with null; no parser, progress untouched. */
  lemma FetchFailureFinishesWithNull(s: Loader, p: Poll)
    requires s.phase == WaitingBytes && p.bytesLoader.isCompleted && !p.bytesLoader.isSuccess
    ensures var r := Resume(s, p);
      r.phase == Finished && r.result == None && r.parser == s.parser &&
      r.errorEvents == s.errorEvents + 1 && r.progress == s.progress &&
      r.trace == s.trace + [ErrorEventFired, FinishedWith(None)] &&
      r.bytesLoaderReleased == s.bytesLoaderReleased
  {
  }

  /** Polling the parser only appends to the trace and leaves the parser and the bytes-loader effects alone. */
  lemma PollParserExtends(s: Loader, p: Poll)
    ensures var r := PollParser(s, p);
      |r.trace| > |s.trace| && r.trace[..|s.trace|] == s.trace && r.parser == s.parser &&
      r.bytesLoaderReleased == s.bytesLoaderReleased && r.errorEvents == s.errorEvents
  {
  }

  /** A successful fetch reads the bytes, sets progress 0.5, releases the loader, then builds the parser from those bytes. */
  lemma FetchSuccessHandsBytesToParser(s: Loader, p: Poll)
    requires s.phase == WaitingBytes && p.bytesLoader.isCompleted && p.bytesLoader.isSuccess
    ensures var r := Resume(s, p); var parser := Parser(s.url, p.bytesLoader.bytes);
      r.parser == Some(parser) && r.bytesLoaderReleased && r.errorEvents == s.errorEvents &&
      |r.trace| > |s.trace| + 4 &&
      r.trace[..|s.trace| + 4] ==
        s.trace + [BytesRead(p.bytesLoader.bytes), ProgressSet(0.5), BytesLoaderReleased, ParserCreated(parser)]
  {
  }

  /** The decode loop still running after a resumption holds progress p/2 + 1/2, recorded last. */
  lemma DecodingProgressComposes(s: Loader, p: Poll)
    requires Resume(s, p).phase == Decoding
    ensures var r := Resume(s, p); var v := p.parser.progress / 2.0 + 0.5;
      r.progress == v && r.trace == (if s.phase == Decoding then s.trace else s.trace + Handoff(r.parser.value)) + [ProgressSet(v)]
    ensures PollInRange(p) ==> 0.5 <= Resume(s, p).progress <= 1.0
  {
  }

  /** Disposal seen while the parser is unfinished finishes with null and makes no further progress update. */
  lemma DisposalMidDecodeCancels(s: Loader, p: Poll)
    requires s.phase == Decoding || (s.phase == WaitingBytes && p.bytesLoader.isCompleted && p.bytesLoader.isSuccess)
    requires !p.parser.isFinished && p.isReadyDisposed
    ensures var r := Resume(s, p);
      r.phase == Finished && r.result == None && r.trace[|r.trace| - 1] == FinishedWith(None) &&
      r.progress == (if s.phase == Decoding then s.progress else 0.5) &&
      (s.phase == Decoding ==> r.trace == s.trace + [FinishedWith(None)])
  {
  }

  /** A finished parser always ends the load with progress 1 and the parser's bundle, null included, disposed or not. */
  lemma NormalCompletion(s: Loader, p: Poll)
    requires s.phase == Decoding || (s.phase == WaitingBytes && p.bytesLoader.isCompleted && p.bytesLoader.isSuccess)
    requires p.parser.isFinished
    ensures var r := Resume(s, p);
      r.phase == Finished && r.progress == 1.0 && r.result == p.parser.bundle &&
      r.trace[|r.trace| - 2..] == [ProgressSet(1.0), FinishedWith(p.parser.bundle)]
    ensures Resume(s, p) == Resume(s, p.(isReadyDisposed := !p.isReadyDisposed))
  {
  }

  /** DoDispose calls the parser's Dispose(false) exactly when a parser exists and changes nothing else. */
  lemma DisposeOnlyWithParser(s: Loader)
    ensures Dispose(s).parserDisposals == s.parserDisposals + (if s.parser.Some? then [false] else [])
    ensures Dispose(s).(parserDisposals := s.parserDisposals) == s
  {
  }

  // ----- the invariant -----

  lemma ResumeKeepsInv(s: Loader, p: Poll)
    requires Inv(s)
    ensures Inv(Resume(s, p))
  {
    if s.phase == Decoding {
      PollParserKeepsInv(s, p);
    }
  }

  lemma PollParserKeepsInv(s: Loader, p: Poll)
    requires Inv(s) && s.phase == Decoding
    ensures Inv(PollParser(s, p))
  {
  }

  lemma DisposeKeepsInv(s: Loader)
    requires Inv(s)
    ensures Inv(Dispose(s))
  {
  }

  /** Every action keeps the invariant. */
  lemma {:induction false} RunKeepsInv(s: Loader, actions: seq<Action>)
    requires Inv(s)
    ensures Inv(Run(s, actions))
    decreases |actions|
  {
    if actions != [] {
      var pre := Run(s, actions[..|actions| - 1]);
      RunKeepsInv(s, actions[..|actions| - 1]);
      match actions[|actions| - 1]
      case Resumed(p) => ResumeKeepsInv(pre, p);
      case DoDisposeCalled => DisposeKeepsInv(pre);
    }
  }

  /** Every loader the scheduler and the base class can produce from Init satisfies the invariant. */
  lemma ReachableInv(url: string, requested: LoaderMode, d: InAppPathType, actions: seq<Action>)
    ensures Inv(Run(Start(url, requested, d), actions))
  {
    LoadingAlwaysStarts(url, requested, d);
    RunKeepsInv(Start(url, requested, d), actions);
  }

  // ----- consequences of the invariant -----

  /** The error event fires at most once, and only on the failure path, which never constructs or disposes a parser. */
  lemma FailedLoadNeverCreatesParser(s: Loader)
    requires Inv(s)
    ensures s.errorEvents <= 1
    ensures s.errorEvents == 1 <==> s.phase == Finished && s.parser.None?
    ensures s.errorEvents == 1 ==>
      s.result == None && s.parserDisposals == [] && !s.bytesLoaderReleased &&
      (forall i :: 0 <= i < |s.trace| ==> !s.trace[i].ParserCreated?) &&
      s.trace[|s.trace| - 2..] == [ErrorEventFired, FinishedWith(None)]
  {
  }

  /** A parser exists only after the bytes were read, progress set to 0.5 and the bytes loader released, and it holds those bytes. */
  lemma ParserHoldsFetchedBytes(s: Loader)
    requires Inv(s) && s.parser.Some?
    ensures s.bytesLoaderReleased && s.parser.value.url == s.url
    ensures s.trace[2..6] ==
      [BytesRead(s.parser.value.bytes), ProgressSet(0.5), BytesLoaderReleased, ParserCreated(s.parser.value)]
  {
  }

  /** The finish is recorded at most once, as the last event, with the result the loader holds. */
  lemma FinishRecordedLast(s: Loader, i: nat)
    requires Inv(s) && i < |s.trace| && s.trace[i].FinishedWith?
    ensures s.phase == Finished && i == |s.trace| - 1 && s.trace[i].result == s.result
  {
  }

  // ----- progress -----

  /** With parser progress in [0, 1], one resumption keeps the progress bounds. */
  lemma ResumeKeepsProgressOk(s: Loader, p: Poll)
    requires Inv(s) && ProgressOk(s) && PollInRange(p)
    ensures ProgressOk(Resume(s, p))
  {
  }

  lemma {:induction false} RunKeepsProgressOk(s: Loader, actions: seq<Action>)
    requires Inv(s) && ProgressOk(s) && PollsInRange(actions)
    ensures ProgressOk(Run(s, actions))
    decreases |actions|
  {
    if actions != [] {
      var init := actions[..|actions| - 1];
      assert PollsInRange(init) by {
        forall i | 0 <= i < |init| && init[i].Resumed? ensures PollInRange(init[i].poll) {
          assert init[i] == actions[i];
        }
      }
      RunKeepsInv(s, init);
      RunKeepsProgressOk(s, init);
      match actions[|actions| - 1]
      case Resumed(p) => ResumeKeepsProgressOk(Run(s, init), p);
      case DoDisposeCalled =>
    }
  }

  /** Progress of every loader reached from Init stays in [0, 1]; it is 0 on a failed fetch and at least 0.5 once a parser exists. */
  lemma ProgressStaysInRange(url: string, requested: LoaderMode, d: InAppPathType, actions: seq<Action>)
    requires PollsInRange(actions)
    ensures ProgressOk(Run(Start(url, requested, d), actions))
  {
    LoadingAlwaysStarts(url, requested, d);
    RunKeepsProgressOk(Start(url, requested, d), actions);
  }

  /** The loader is still in the decode loop with progress no more than what a parser reporting q shows. */
  predicate ProgressBelow(s: Loader, q: real) {
    s.phase == Decoding ==> s.progress <= q / 2.0 + 0.5
  }

  /** One resumption does not lower progress, if the parser has not gone back since the last poll. */
  lemma ResumeNeverRegresses(s: Loader, p: Poll)
    requires Inv(s) && ProgressOk(s) && PollInRange(p) && ProgressBelow(s, p.parser.progress)
    ensures s.progress <= Resume(s, p).progress
    ensures forall q :: p.parser.progress <= q ==> ProgressBelow(Resume(s, p), q)
  {
  }

  /** Along a run from Init, after k actions the bound holds for every later poll. */
  lemma {:induction false} BoundedByLaterPolls(s: Loader, actions: seq<Action>, k: nat)
    requires Inv(s) && ProgressOk(s) && s.phase == WaitingBytes
    requires PollsInRange(actions) && ParserNonDecreasing(actions) && k <= |actions|
    ensures Inv(Run(s, actions[..k])) && ProgressOk(Run(s, actions[..k]))
    ensures forall i :: k <= i < |actions| && actions[i].Resumed? ==>
      ProgressBelow(Run(s, actions[..k]), actions[i].poll.parser.progress)
    decreases k
  {
    if k == 0 {
      assert actions[..0] == [];
    } else {
      BoundedByLaterPolls(s, actions, k - 1);
      var pre := Run(s, actions[..k - 1]);
      assert actions[..k][..k - 1] == actions[..k - 1];
      assert Run(s, actions[..k]) == Apply(pre, actions[k - 1]);
      match actions[k - 1]
      case Resumed(p) =>
        ResumeKeepsInv(pre, p);
        ResumeKeepsProgressOk(pre, p);
        ResumeNeverRegresses(pre, p);
        forall i | k <= i < |actions| && actions[i].Resumed?
          ensures ProgressBelow(Run(s, actions[..k]), actions[i].poll.parser.progress)
        {
          assert actions[k - 1].poll.parser.progress <= actions[i].poll.parser.progress;
        }
      case DoDisposeCalled =>
        DisposeKeepsInv(pre);
    }
  }

  /** Progress never goes down along a run from Init, while the parser's own progress never goes down. */
  lemma {:induction false} ProgressNeverRegresses(url: string, requested: LoaderMode, d: InAppPathType,
                                                  actions: seq<Action>, k1: nat, k2: nat)
    requires PollsInRange(actions) && ParserNonDecreasing(actions) && k1 <= k2 <= |actions|
    ensures Run(Start(url, requested, d), actions[..k1]).progress <= Run(Start(url, requested, d), actions[..k2]).progress
    decreases k2 - k1
  {
    var s := Start(url, requested, d);
    if k1 < k2 {
      ProgressNeverRegresses(url, requested, d, actions, k1 + 1, k2);
      LoadingAlwaysStarts(url, requested, d);
      BoundedByLaterPolls(s, actions, k1);
      var pre := Run(s, actions[..k1]);
      assert actions[..k1 + 1][..k1] == actions[..k1];
      assert Run(s, actions[..k1 + 1]) == Apply(pre, actions[k1]);
      match actions[k1]
      case Resumed(p) => ResumeNeverRegresses(pre, p);
      case DoDisposeCalled =>
    }
  }

  /**
   * A DoDispose while the bytes are still being fetched finds no parser. If the fetch then succeeds
   * and the disposal flag is seen in the same resumption, the parser is constructed, the load ends
   * with null, and that parser is never disposed.
   */
  lemma DisposeDuringFetchLeavesParserUndisposed(url: string, requested: LoaderMode, d: InAppPathType,
                                                 bytes: seq<byte>, parserPoll: ParserPoll)
    requires !parserPoll.isFinished
    ensures var s := Run(Start(url, requested, d),
                         [DoDisposeCalled, Resumed(Poll(BytesPoll(true, true, bytes), parserPoll, true))]);
      s.phase == Finished && s.result == None && s.parser == Some(Parser(url, bytes)) &&
      s.parserDisposals == []
  {
    var acts := [DoDisposeCalled, Resumed(Poll(BytesPoll(true, true, bytes), parserPoll, true))];
    var s0 := Start(url, requested, d);
    assert acts[..1][..0] == [];
    assert acts[..1] == [DoDisposeCalled];
    assert Run(s0, acts[..1]) == Dispose(s0) == s0;
    assert Run(s0, acts) == Resume(s0, acts[1].poll);
  }

  // ----- the end of a load -----

  /** Once finished, nothing but the parser dispose calls changes any more. */
  lemma {:induction false} FinishedIsFinal(s: Loader, actions: seq<Action>)
    requires s.phase == Finished
    ensures Run(s, actions) == s.(parserDisposals := Run(s, actions).parserDisposals)
    decreases |actions|
  {
    if actions != [] {
      FinishedIsFinal(s, actions[..|actions| - 1]);
    }
  }
}
