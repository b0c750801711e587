/**
 * How a KAssetBundleLoader chooses its loader mode and the in-app directory its raw
 * bytes come from (KAssetBundleLoader.Init, first half).
 */
module LoaderModes {
  import opened Wrappers

  /** KAssetBundleLoaderMode, with the source's own spelling of its members. */
  datatype LoaderMode =
    | Default
    | PersitentDataPathSync
    | StreamingAssetsWww
    | ResourcesLoadAsync
    | ResourcesLoad

  /**
   * KResourceInAppPathType: the directory the bytes are read from. The enum is declared
   * outside this file; a C# enum variable may hold a value other than its named members,
   * and OtherPathType stands for every such value. Its raw payload only tells such unnamed
   * values apart; it is never compared with the named members.
   */
  datatype InAppPathType =
    | StreamingAssetsPath
    | ResourcesAssetsPath
    | PersistentAssetsPath
    | OtherPathType(raw: int)

  predicate Recognised(p: InAppPathType) {
    !p.OtherPathType?
  }

  /** The two errors Init logs: an unknown process-wide default, an unknown mode. */
  datatype InitError =
    | UnknownDefaultPathType(pathType: InAppPathType)
    | UnknownLoaderMode(mode: LoaderMode)

  /** What Init leaves in _loaderMode and _inAppPathType, and the errors it logged on the way. */
  datatype Resolution = Resolution(mode: LoaderMode, pathType: InAppPathType, errors: seq<InitError>)

  /** Reference table: the in-app directory each concrete mode reads its bytes from. */
  const ModeTable: set<(LoaderMode, InAppPathType)> :=
    { (ResourcesLoad, ResourcesAssetsPath),
      (ResourcesLoadAsync, ResourcesAssetsPath),
      (StreamingAssetsWww, StreamingAssetsPath),
      (PersitentDataPathSync, PersistentAssetsPath) }

  predicate ReadsFrom(m: LoaderMode, p: InAppPathType) {
    (m, p) in ModeTable
  }

  /** The first switch: the concrete mode a Default request takes from the default path type; None is its error branch. */
  function ModeForDefault(p: InAppPathType): (r: Option<LoaderMode>)
    ensures r.Some? <==> Recognised(p)
    ensures r.Some? ==> r.value != Default && ReadsFrom(r.value, p)
  {
    match p
    case StreamingAssetsPath => Some(StreamingAssetsWww)
    case ResourcesAssetsPath => Some(ResourcesLoad)
    case PersistentAssetsPath => Some(PersitentDataPathSync)
    case OtherPathType(_) => None
  }

  /** The second switch: the path type a mode reads from; None is its error branch. */
  function PathTypeFor(m: LoaderMode): (r: Option<InAppPathType>)
    ensures r.None? <==> m == Default
    ensures r.Some? ==> ReadsFrom(m, r.value)
    ensures forall p :: ReadsFrom(m, p) ==> r == Some(p)
  {
    match m
    case ResourcesLoad => Some(ResourcesAssetsPath)
    case ResourcesLoadAsync => Some(ResourcesAssetsPath)
    case StreamingAssetsWww => Some(StreamingAssetsPath)
    case PersitentDataPathSync => Some(PersistentAssetsPath)
    case Default => None
  }

  /**
   * Init's two switches. A Default request first copies the default path type into the
   * path-type field and picks a mode from it; the mode then decides the path type. When the
   * mode is still Default the second switch logs and leaves the field as the first step set it.
   */
  function Resolve(requested: LoaderMode, defaultPathType: InAppPathType): (r: Resolution)
    ensures requested != Default ==> r.mode == requested && r.errors == []
    ensures requested == Default ==> r.pathType == defaultPathType
    ensures r.mode != Default ==> ReadsFrom(r.mode, r.pathType)
    ensures r.mode == Default <==> requested == Default && !Recognised(defaultPathType)
    ensures r.errors == [] <==> r.mode != Default
  {
    var (mode, logged) :=
      if requested != Default then (requested, [])
      else match ModeForDefault(defaultPathType)
        case Some(m) => (m, [])
        case None => (Default, [UnknownDefaultPathType(defaultPathType)]);
    match PathTypeFor(mode)
    case Some(p) => Resolution(mode, p, logged)
    // only a Default request reaches this branch, after the field was set to the default
    case None => Resolution(mode, defaultPathType, logged + [UnknownLoaderMode(mode)])
  }

  /** Each concrete mode reads from exactly one directory. */
  lemma ModeTableIsFunctional(m: LoaderMode, p: InAppPathType, q: InAppPathType)
    requires ReadsFrom(m, p) && ReadsFrom(m, q)
    ensures p == q && m != Default
  {
  }

  /** An explicit mode fixes the path type by the table, whatever the process-wide default is. */
  lemma ExplicitModeFixesPathType(m: LoaderMode, d: InAppPathType)
    requires m != Default
    ensures Resolve(m, d).mode == m && Resolve(m, d).errors == []
    ensures m == ResourcesLoad || m == ResourcesLoadAsync ==> Resolve(m, d).pathType == ResourcesAssetsPath
    ensures m == StreamingAssetsWww ==> Resolve(m, d).pathType == StreamingAssetsPath
    ensures m == PersitentDataPathSync ==> Resolve(m, d).pathType == PersistentAssetsPath
    ensures forall d' :: Resolve(m, d') == Resolve(m, d)
  {
  }

  /** A Default request follows a recognised default path type, and the second switch agrees with it. */
  lemma DefaultFollowsDefaultPathType(d: InAppPathType)
    requires Recognised(d)
    ensures Resolve(Default, d).pathType == d && Resolve(Default, d).errors == []
    ensures d == StreamingAssetsPath ==> Resolve(Default, d).mode == StreamingAssetsWww
    ensures d == ResourcesAssetsPath ==> Resolve(Default, d).mode == ResourcesLoad
    ensures d == PersistentAssetsPath ==> Resolve(Default, d).mode == PersitentDataPathSync
    ensures ReadsFrom(Resolve(Default, d).mode, d)
  {
  }

  /** An unrecognised default path type hits both error branches, keeps the mode Default and the path type as given. */
  lemma UnrecognisedDefaultPathType(d: InAppPathType)
    requires !Recognised(d)
    ensures Resolve(Default, d) == Resolution(Default, d, [UnknownDefaultPathType(d), UnknownLoaderMode(Default)])
  {
  }

  /** A resolved concrete mode resolves to itself again, with the same path type and no error. */
  lemma ResolutionIsStable(requested: LoaderMode, d: InAppPathType, d': InAppPathType)
    requires Resolve(requested, d).mode != Default
    ensures var r := Resolve(requested, d); Resolve(r.mode, d') == Resolution(r.mode, r.pathType, [])
  {
  }
}
