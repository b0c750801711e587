# KAssetBundleLoader, modelled in Dafny

KEngine's `KAssetBundleLoader` loads a Unity AssetBundle in two stages. A bytes loader fetches
the raw bytes from one of three in-app directories. Then a bundle parser decodes them. This project
models the two parts of the class that carry logic and proves properties about them:

- **Mode and path-type resolution** (`Init`). A `Default` loader mode is replaced by a concrete
  mode chosen from the process-wide default in-app path type. The mode then fixes the path type
  the bytes are read from. Module `LoaderModes` holds this as pure functions, checked against an
  independent table `ModeTable`.
- **The load coroutine** (`LoadAssetBundle`, `OnFinish`, `DoDispose`). This is modelled as a
  poll-driven state machine. Module `LoadCoroutine` gives the pure specification:
  - `Resume` is one resumption, given a `Poll`: what the bytes loader, the parser and the
    `IsReadyDisposed` flag report at that moment.
  - `Dispose` is `DoDispose`.
  - `Run` folds any sequence of resumptions and disposals.
  - `Inv` is the invariant of every loader that `Init` creates. It includes the exact shape of
    the trace of side effects.
- **The class** (module `AssetBundleLoader`, class `KAssetBundleLoader`). It has the source's
  fields plus ghost fields for effects on collaborators: error-event raises, the bytes loader's
  `Release`, parser `Dispose` calls, and an ordered trace. Its constructor is `Init`. Its
  `Step`, `OnFinish` and `DoDispose` are proved to equal the specification functions.

Progress is a `real`, composed as `p/2 + 1/2` from the parser's progress `p`.

Four behaviours of `LoadAssetBundle` worth stating:
- On cancellation mid-decode the code only calls `OnFinish(null)`. It never calls the parser's
  `Dispose(true)`. `DoDispose` is the only place the parser is disposed, and always with `false`.
- The failure path and the cancellation path never set `Progress`. A failed fetch finishes with
  the progress the loader started with: 0 in this model, an assumed initial value (see "Left out").
  A cancelled decode keeps its last progress.
- There is no window between a successful fetch and the parser's construction. Both happen in the
  same resumption, before disposal is first looked at.
- The failure path never calls `Release` on the bytes loader. Only a successful fetch releases it.

A consequence the model also proves (`LoadCoroutine.DisposeDuringFetchLeavesParserUndisposed`): a
`DoDispose` that runs while the bytes are still being fetched finds no parser. If the fetch then
succeeds, the coroutine constructs a parser, sees the disposal flag, and finishes with null; that
parser is never disposed. Whether this can happen in practice depends on when the base class calls
`DoDispose`, which is not part of this model.

## Model

| member | source | states |
|---|---|---|
| LoaderModes.ModeForDefault | KEngine.UnityProject/Assets/KEngine/CoreModules/ResourceModule/KAssetBundleLoader.cs:96-110 | a default path type yields a mode exactly when it is one of the three named ones; that mode is concrete and reads from that path type |
| LoaderModes.PathTypeFor | KEngine.UnityProject/Assets/KEngine/CoreModules/ResourceModule/KAssetBundleLoader.cs:113-128 | every mode except Default has a path type, the only one the table gives it; Default falls to the error branch |
| LoaderModes.Resolve | KEngine.UnityProject/Assets/KEngine/CoreModules/ResourceModule/KAssetBundleLoader.cs:90-128 | an explicit mode is kept without error; a Default request ends with the default path type; a resolved concrete mode reads from the resolved path type; the mode stays Default exactly when the default path type is unrecognised; errors are logged exactly then |
| LoaderModes.ModeTableIsFunctional | KEngine.UnityProject/Assets/KEngine/CoreModules/ResourceModule/KAssetBundleLoader.cs:113-124 | each concrete mode reads from exactly one directory, and Default from none |
| LoaderModes.ExplicitModeFixesPathType | KEngine.UnityProject/Assets/KEngine/CoreModules/ResourceModule/KAssetBundleLoader.cs:113-124 | ResourcesLoad and ResourcesLoadAsync read from ResourcesAssetsPath, StreamingAssetsWww from StreamingAssetsPath, PersitentDataPathSync from PersistentAssetsPath, whatever the default is |
| LoaderModes.DefaultFollowsDefaultPathType | KEngine.UnityProject/Assets/KEngine/CoreModules/ResourceModule/KAssetBundleLoader.cs:93-124 | Default with Streaming, Resources or Persistent resolves to StreamingAssetsWww, ResourcesLoad or PersitentDataPathSync; the final path type equals the default, consistent with the second switch |
| LoaderModes.UnrecognisedDefaultPathType | KEngine.UnityProject/Assets/KEngine/CoreModules/ResourceModule/KAssetBundleLoader.cs:93-128 | an unrecognised default leaves the mode Default, keeps that path type and logs both errors in order |
| LoaderModes.ResolutionIsStable | KEngine.UnityProject/Assets/KEngine/CoreModules/ResourceModule/KAssetBundleLoader.cs:86-128 | resolving a resolved concrete mode again gives the same mode and path type and no error |
| LoadCoroutine.LoadingAlwaysStarts | KEngine.UnityProject/Assets/KEngine/CoreModules/ResourceModule/KAssetBundleLoader.cs:125-140 | whatever Init logged, the new-loader event and the bytes-loader request happen, with the resolved path type and mode; the start state satisfies the invariant, with progress 0 |
| LoadCoroutine.BytesWaitIgnoresDisposal | KEngine.UnityProject/Assets/KEngine/CoreModules/ResourceModule/KAssetBundleLoader.cs:141-144 | while the bytes are incomplete a resumption changes nothing; the bytes-wait stage never depends on the disposal flag |
| LoadCoroutine.FetchFailureFinishesWithNull | KEngine.UnityProject/Assets/KEngine/CoreModules/ResourceModule/KAssetBundleLoader.cs:145-153 | a failed fetch fires the error event once, then finishes with null; no parser, no release, progress untouched |
| LoadCoroutine.PollParserExtends | KEngine.UnityProject/Assets/KEngine/CoreModules/ResourceModule/KAssetBundleLoader.cs:161-177 | polling the parser only appends to the trace and leaves the parser, the release flag and the error count alone |
| LoadCoroutine.FetchSuccessHandsBytesToParser | KEngine.UnityProject/Assets/KEngine/CoreModules/ResourceModule/KAssetBundleLoader.cs:156-160 | a successful fetch reads the bytes, sets progress 0.5, releases the bytes loader, then constructs the parser from the url and those same bytes |
| LoadCoroutine.DecodingProgressComposes | KEngine.UnityProject/Assets/KEngine/CoreModules/ResourceModule/KAssetBundleLoader.cs:161-170 | a loader still decoding after a resumption shows progress p/2 + 1/2, set after any earlier effects; it lies in [0.5, 1] when p lies in [0, 1] |
| LoadCoroutine.DisposalMidDecodeCancels | KEngine.UnityProject/Assets/KEngine/CoreModules/ResourceModule/KAssetBundleLoader.cs:161-167 | disposal seen while the parser is unfinished finishes with null and makes no further progress update |
| LoadCoroutine.NormalCompletion | KEngine.UnityProject/Assets/KEngine/CoreModules/ResourceModule/KAssetBundleLoader.cs:172-177 | a finished parser ends the load with progress exactly 1 and the parser's bundle, even a null one, whether or not disposal was requested |
| LoadCoroutine.DisposeOnlyWithParser | KEngine.UnityProject/Assets/KEngine/CoreModules/ResourceModule/KAssetBundleLoader.cs:195-201 | DoDispose calls the parser's Dispose(false) exactly when a parser was created, and changes nothing else |
| LoadCoroutine.ResumeKeepsInv | KEngine.UnityProject/Assets/KEngine/CoreModules/ResourceModule/KAssetBundleLoader.cs:138-177 | every resumption keeps the invariant |
| LoadCoroutine.PollParserKeepsInv | KEngine.UnityProject/Assets/KEngine/CoreModules/ResourceModule/KAssetBundleLoader.cs:161-177 | one pass of the decode loop keeps the invariant |
| LoadCoroutine.DisposeKeepsInv | KEngine.UnityProject/Assets/KEngine/CoreModules/ResourceModule/KAssetBundleLoader.cs:195-201 | DoDispose keeps the invariant |
| LoadCoroutine.RunKeepsInv | KEngine.UnityProject/Assets/KEngine/CoreModules/ResourceModule/KAssetBundleLoader.cs:138-201 | any sequence of resumptions and disposals keeps the invariant |
| LoadCoroutine.ReachableInv | KEngine.UnityProject/Assets/KEngine/CoreModules/ResourceModule/KAssetBundleLoader.cs:86-201 | every loader that Init and any later resumptions and disposals produce satisfies the invariant |
| LoadCoroutine.FailedLoadNeverCreatesParser | KEngine.UnityProject/Assets/KEngine/CoreModules/ResourceModule/KAssetBundleLoader.cs:145-153 | the error event fires at most once, and only on a failed fetch; such a load finishes with null, never constructs or disposes a parser, and fires the event just before finishing |
| LoadCoroutine.ParserHoldsFetchedBytes | KEngine.UnityProject/Assets/KEngine/CoreModules/ResourceModule/KAssetBundleLoader.cs:156-160 | a parser exists only after the bytes were read, progress set to 0.5 and the bytes loader released, in that order; it holds exactly those bytes and the loader's url |
| LoadCoroutine.FinishRecordedLast | KEngine.UnityProject/Assets/KEngine/CoreModules/ResourceModule/KAssetBundleLoader.cs:145-177 | OnFinish happens at most once, as the last effect, with the result the loader keeps |
| LoadCoroutine.ResumeKeepsProgressOk | KEngine.UnityProject/Assets/KEngine/CoreModules/ResourceModule/KAssetBundleLoader.cs:157-172 | with parser progress in [0, 1], a resumption keeps progress in [0, 1]: 0 while waiting and after a failed fetch, at least 0.5 once a parser exists |
| LoadCoroutine.RunKeepsProgressOk | KEngine.UnityProject/Assets/KEngine/CoreModules/ResourceModule/KAssetBundleLoader.cs:157-172 | the same bounds hold along any run |
| LoadCoroutine.ProgressStaysInRange | KEngine.UnityProject/Assets/KEngine/CoreModules/ResourceModule/KAssetBundleLoader.cs:157-172 | the same bounds hold for every loader reached from Init |
| LoadCoroutine.ResumeNeverRegresses | KEngine.UnityProject/Assets/KEngine/CoreModules/ResourceModule/KAssetBundleLoader.cs:157-172 | a resumption does not lower progress if the parser has not gone back since the last poll |
| LoadCoroutine.BoundedByLaterPolls | KEngine.UnityProject/Assets/KEngine/CoreModules/ResourceModule/KAssetBundleLoader.cs:157-172 | along a run, progress while decoding never exceeds what any later parser poll would show |
| LoadCoroutine.ProgressNeverRegresses | KEngine.UnityProject/Assets/KEngine/CoreModules/ResourceModule/KAssetBundleLoader.cs:157-172 | along any run from Init, progress is non-decreasing while the parser's progress is non-decreasing |
| LoadCoroutine.FinishedIsFinal | KEngine.UnityProject/Assets/KEngine/CoreModules/ResourceModule/KAssetBundleLoader.cs:152-177 | once finished, further resumptions and disposals change nothing but the parser dispose calls |
| LoadCoroutine.DisposeDuringFetchLeavesParserUndisposed | KEngine.UnityProject/Assets/KEngine/CoreModules/ResourceModule/KAssetBundleLoader.cs:141-201 | a DoDispose during the bytes wait records no parser dispose; a later successful fetch seen together with disposal constructs a parser and finishes with null, and that parser has no dispose call |
| AssetBundleLoader.KAssetBundleLoader.Bundle | KEngine.UnityProject/Assets/KEngine/CoreModules/ResourceModule/KAssetBundleLoader.cs:55-58 | the bundle is present only after the load finished through a parser |
| AssetBundleLoader.KAssetBundleLoader.constructor | KEngine.UnityProject/Assets/KEngine/CoreModules/ResourceModule/KAssetBundleLoader.cs:86-137 | Init: the object's state is the start state for the resolved mode and path type, and it satisfies the invariant |
| AssetBundleLoader.KAssetBundleLoader.OnFinish | KEngine.UnityProject/Assets/KEngine/CoreModules/ResourceModule/KAssetBundleLoader.cs:184-193 | records the result and ends the coroutine, as the specification's finish |
| AssetBundleLoader.KAssetBundleLoader.PollBundleParser | KEngine.UnityProject/Assets/KEngine/CoreModules/ResourceModule/KAssetBundleLoader.cs:161-177 | one pass of the decode loop on the object equals the specification's parser poll |
| AssetBundleLoader.KAssetBundleLoader.Step | KEngine.UnityProject/Assets/KEngine/CoreModules/ResourceModule/KAssetBundleLoader.cs:138-182 | one resumption on the object equals Resume on its old state, and keeps the invariant |
| AssetBundleLoader.KAssetBundleLoader.DoDispose | KEngine.UnityProject/Assets/KEngine/CoreModules/ResourceModule/KAssetBundleLoader.cs:195-201 | the object's new state is Dispose of its old state, and keeps the invariant |

## Left out

- Unity coroutine scheduling (`StartCoroutine`, `yield return null`): each resumption is an explicit `Step`. `StartCoroutine` runs the first resumption at once; here that is the first `Step` after the constructor.
- The base class `KAbstractResourceLoader` (`AutoNew`, reference counting and reuse, the callbacks dispatched by `base.OnFinish`, `base.DoDispose`, `base.Release`, how `IsReadyDisposed` is set) is not part of this model. `OnFinish` only records the result. `IsReadyDisposed` is an input of each poll. The initial `Progress` is taken to be 0.
- `KBytesLoader` and `KAssetBundleParser` are not part of this model beyond what one poll reads from them. Their I/O and formats are not visible.
- The static `Load` wrapper (a callback adapter over `AutoNew`) is left out. So are `Release` and its editor-only "Arial" diagnostic.
- The `_wwwLoader` branch of `OnFinish` is a no-op: the field is never assigned in this class.
- Logging (`KLogger`, `KResourceModule.LogRequest`) is left out. The two errors `Init` logs are kept as `Resolution.errors`. The null-bundle log message is not kept.
- The static events are not modelled as subscriber lists. Each raise appears in the trace, assuming a subscriber is registered.
- An out-of-range cast of `args[0]` to `KAssetBundleLoaderMode` is left out: the field's value before `Init` is decided by the base class. A path type outside the three named members is modelled, as `OtherPathType`.
- Floating point: progress is a `real`, so float rounding of `p / 2f + 1/2f` is not modelled.
