/**
 * KAssetBundleLoader: Init resolves the mode and path type and starts the load coroutine;
 * each Step is one resumption of LoadAssetBundle; OnFinish records the result; DoDispose
 * tears down the parser. Every method is proved against the functions of LoadCoroutine.
 */
module AssetBundleLoader {
  import opened Wrappers
  import opened LoaderModes
  import opened LoadCoroutine

  class KAssetBundleLoader {
    /** RelativeResourceUrl: the url the loader was created for. */
    const url: string
    /** _loaderMode as Init leaves it. */
    const loaderMode: LoaderMode
    /** _inAppPathType as Init leaves it. */
    const inAppPathType: InAppPathType

    /** Where the coroutine is suspended. */
    var phase: Phase
    var progress: real
    var bundleParser: Option<Parser>
    /** ResultObject, as handed to OnFinish. */
    var resultObject: Option<Bundle>

    /** Effects on collaborators: error-event raises, the bytes loader's Release, parser Dispose calls, and their order. */
    ghost var errorEvents: nat
    ghost var bytesLoaderReleased: bool
    ghost var parserDisposals: seq<bool>
    ghost var trace: seq<Event>

    ghost function State(): Loader
      reads this
    {
      Loader(url, loaderMode, inAppPathType, phase, progress, bundleParser, resultObject,
             errorEvents, bytesLoaderReleased, parserDisposals, trace)
    }

    ghost predicate Valid()
      reads this
    {
      Inv(State())
    }

    /** Bundle: the result as an AssetBundle. */
    function Bundle(): (b: Option<Bundle>)
      reads this
      requires Valid()
      ensures b.Some? ==> phase == Finished && bundleParser.Some?
    {
      resultObject
    }

    /**
     * Init: resolve mode and path type, announce the new loader, request the bytes loader.
     * The first resumption, which StartCoroutine runs at once, is the first Step.
     */
    constructor (url: string, requested: LoaderMode, defaultPathType: InAppPathType)
      ensures Valid()
      ensures State() == Start(url, requested, defaultPathType)
    {
      var r := Resolve(requested, defaultPathType);
      this.url := url;
      loaderMode := r.mode;
      inAppPathType := r.pathType;
      phase := WaitingBytes;
      progress := 0.0;
      bundleParser := None;
      resultObject := None;
      errorEvents := 0;
      bytesLoaderReleased := false;
      parserDisposals := [];
      trace := [NewLoaderAnnounced(url), BytesLoaderRequested(url, r.pathType, r.mode)];
      LoadingAlwaysStarts(url, requested, defaultPathType);
    }

    /** OnFinish: record the result and end the coroutine (the _wwwLoader branch never runs: the field is never set). */
    method OnFinish(resultObj: Option<Bundle>)
      modifies this`phase, this`resultObject, this`trace
      ensures State() == Finish(old(State()), resultObj)
    {
      resultObject := resultObj;
      phase := Finished;
      trace := trace + [FinishedWith(resultObj)];
    }

    /** One test of the decode loop's condition, and one iteration if the parser is unfinished. */
    method PollBundleParser(poll: Poll)
      modifies this
      ensures State() == PollParser(old(State()), poll)
    {
      if !poll.parser.isFinished {
        if poll.isReadyDisposed {
          OnFinish(None);
        } else {
          var value := poll.parser.progress / 2.0 + 0.5;
          progress := value;
          trace := trace + [ProgressSet(value)];
        }
      } else {
        progress := 1.0;
        trace := trace + [ProgressSet(1.0)];
        var assetBundle := poll.parser.bundle;
        OnFinish(assetBundle);
      }
    }

    /** One resumption of LoadAssetBundle by the scheduler. */
    method Step(poll: Poll)
      requires Valid()
      modifies this
      ensures Valid()
      ensures State() == Resume(old(State()), poll)
    {
      ghost var before := State();
      ResumeKeepsInv(before, poll);
      if phase == WaitingBytes {
        if poll.bytesLoader.isCompleted {
          if !poll.bytesLoader.isSuccess {
            errorEvents := errorEvents + 1;
            trace := trace + [ErrorEventFired];
            assert State() == before.(errorEvents := before.errorEvents + 1, trace := before.trace + [ErrorEventFired]);
            OnFinish(None);
          } else {
            var bundleBytes := poll.bytesLoader.bytes;
            trace := trace + [BytesRead(bundleBytes)];
            progress := 0.5;
            trace := trace + [ProgressSet(0.5)];
            bytesLoaderReleased := true;
            trace := trace + [BytesLoaderReleased];
            bundleParser := Some(Parser(url, bundleBytes));
            trace := trace + [ParserCreated(Parser(url, bundleBytes))];
            phase := Decoding;
            assert State() == before.(progress := 0.5, bytesLoaderReleased := true,
              parser := Some(Parser(url, bundleBytes)), phase := Decoding,
              trace := before.trace + Handoff(Parser(url, bundleBytes)));
            PollBundleParser(poll);
          }
        }
      } else if phase == Decoding {
        PollBundleParser(poll);
      }
    }

    /** DoDispose: Dispose(false) on the parser if one was created. */
    method DoDispose()
      requires Valid()
      modifies this`parserDisposals
      ensures Valid()
      ensures State() == Dispose(old(State()))
    {
      DisposeKeepsInv(State());
      if bundleParser.Some? {
        parserDisposals := parserDisposals + [false];
      }
    }
  }
}
