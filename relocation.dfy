/** `convertExtensionFields` and `moveExt`: every `ext` object at a fixed set
    of places in an OpenRTB request is moved under a vendor-specific key of
    the same object, as a shallow copy. The places and their keys are the
    `Location`s below, and the whole conversion is the relocation at each of
    them in the order the adapter visits them. */
module ExtensionRelocation {
  import opened JsonValues
  import opened Paths
  import opened FlagCoercion
  import opened Walks

  const ExtKey: string := "ext"

  /** `moveExt(obj, newKey)`: when `obj.ext` is truthy, `ext` is deleted and
      `newKey` receives `{...ext}`; otherwise `obj` is left alone. */
  function MovedExt(obj: Json, newKey: string): (r: Json)
    ensures !Truthy(Field(obj, ExtKey)) ==> r == obj
    ensures Truthy(Field(obj, ExtKey)) ==>
      r.JObj? && Field(r, newKey) == Some(JObj(Spread(obj.fields[ExtKey])))
    ensures Truthy(Field(obj, ExtKey)) && newKey != ExtKey ==> Field(r, ExtKey) == None
    ensures forall k :: k != ExtKey && k != newKey ==> Field(r, k) == Field(obj, k)
    ensures Truthy(Field(obj, ExtKey)) && obj.fields[ExtKey].JObj? ==>
      r.fields[newKey] == obj.fields[ExtKey]
  {
    if Truthy(Field(obj, ExtKey)) then
      JObj((obj.fields - {ExtKey})[newKey := JObj(Spread(obj.fields[ExtKey]))])
    else
      obj
  }

  function MoveExtFn(newKey: string): Json -> Json {
    obj => MovedExt(obj, newKey)
  }

  /** Inside `regs.ext`, the field that is coerced before the move. */
  const GdprPath: Path := [Key(ExtKey), Key("gdpr")]

  /** The places whose `ext` is relocated: imp entries and their banners, the
      app, site, publisher, user, user data entries, device, geo, regs and
      source objects, and the request itself. */
  datatype Location =
    | Banner(i: nat)
    | Imp(i: nat)
    | App
    | Site
    | Publisher
    | User
    | Data(i: nat)
    | Device
    | Geo
    | Regs
    | Source
    | BidRequest

  function At(l: Location): Path {
    match l
    case Banner(i) => [Key("imp"), Index(i), Key("banner")]
    case Imp(i) => [Key("imp"), Index(i)]
    case App => [Key("app")]
    case Site => [Key("site")]
    case Publisher => [Key("site"), Key("publisher")]
    case User => [Key("user")]
    case Data(i) => [Key("user"), Key("data"), Index(i)]
    case Device => [Key("device")]
    case Geo => [Key("device"), Key("geo")]
    case Regs => [Key("regs")]
    case Source => [Key("source")]
    case BidRequest => []
  }

  function VendorKey(l: Location): string {
    match l
    case Banner(_) => "[com.google.doubleclick.banner_ext]"
    case Imp(_) => "[com.google.doubleclick.imp]"
    case App => "[com.google.doubleclick.app]"
    case Site => "[com.google.doubleclick.site]"
    case Publisher => "[com.google.doubleclick.publisher]"
    case User => "[com.google.doubleclick.user]"
    case Data(_) => "[com.google.doubleclick.data]"
    case Device => "[com.google.doubleclick.device]"
    case Geo => "[com.google.doubleclick.geo]"
    case Regs => "[com.google.doubleclick.regs]"
    case Source => "[com.google.doubleclick.source]"
    case BidRequest => "[com.google.doubleclick.bid_request]"
  }

  /** Where the `ext` to be moved sits, and where its copy goes. */
  function ExtSlot(l: Location): Path {
    At(l) + [Key(ExtKey)]
  }

  function VendorSlot(l: Location): Path {
    At(l) + [Key(VendorKey(l))]
  }

  /** What the vendor key of a location receives for a truthy `ext`: a
      shallow copy, taken after `gdpr` is coerced for `regs`. */
  function MovedCopy(l: Location, ext: Json): Json {
    JObj(Spread(if l.Regs? then UpdateAt(ext, [Key("gdpr")], FlagFn()) else ext))
  }

  /** The adapter's block for a location, on the object `x` found there:
      when `x.ext` is truthy, `ext` is deleted and the vendor key receives
      its copy (for `regs`, `regs.ext.gdpr` is coerced first); otherwise
      `x` is left alone. This is `MovedExt` with the copy taken by
      `MovedCopy`, written out so that one definition covers `regs` too;
      `BlockIsMoveExt` and `RegsBlockInSteps` prove it agrees with `moveExt`
      as the adapter calls it. */
  function Block(x: Json, l: Location): Json {
    if Truthy(Field(x, ExtKey)) then
      JObj((x.fields - {ExtKey})[VendorKey(l) := MovedCopy(l, x.fields[ExtKey])])
    else
      x
  }

  /** What is done to the object at a location. */
  function Relocate(l: Location): Json -> Json {
    x => Block(x, l)
  }

  /** The request after the step for one location. */
  function Apply(j: Json, l: Location): Json {
    UpdateAt(j, At(l), Relocate(l))
  }

  /** The locations the adapter visits, in its order: for each imp entry its
      banner and then the entry, then app, site, publisher and user, each user
      data entry, then device, geo, regs, source and the request. */
  function ImpLocations(n: nat): seq<Location> {
    if n == 0 then [] else ImpLocations(n - 1) + [Banner(n - 1), Imp(n - 1)]
  }

  function DataLocations(n: nat): seq<Location> {
    if n == 0 then [] else DataLocations(n - 1) + [Data(n - 1)]
  }

  const ImpPath: Path := [Key("imp")]
  const DataPath: Path := [Key("user"), Key("data")]

  function ArrayLength(p: Option<Json>): nat {
    if p.Some? && p.value.JArr? then |p.value.elems| else 0
  }

  function ExtLocations(req: Json): seq<Location> {
    ImpLocations(ArrayLength(GetAt(req, ImpPath)))
    + [App, Site, Publisher, User]
    + DataLocations(ArrayLength(GetAt(req, DataPath)))
    + [Device, Geo, Regs, Source, BidRequest]
  }

  /** The request after the steps of `t`, in order. */
  function ApplyAll(j: Json, t: seq<Location>): Json {
    Fold(Apply, j, t)
  }

  /** The request after `convertExtensionFields` returns. */
  function Relocated(req: Json): Json {
    ApplyAll(req, ExtLocations(req))
  }

  /** `forEach` over `imp` or `user.data` runs without a TypeError: the
      property is falsy, or an array without `null` entries. */
  predicate Iterable(p: Option<Json>) {
    !Truthy(p) || (p.value.JArr? && forall i :: 0 <= i < |p.value.elems| ==> p.value.elems[i] != JNull)
  }

  /** `convertExtensionFields` throws a TypeError exactly when the request is
      `null` or one of the two walks cannot run. */
  predicate Relocatable(req: Json) {
    req != JNull && Iterable(GetAt(req, ImpPath)) && Iterable(GetAt(req, DataPath))
  }

  function ExtensionFieldsConverted(req: Json): Result<Json> {
    if Relocatable(req) then Ok(Relocated(req)) else TypeError
  }

  /** The locations the adapter visits for this request. */
  predicate Listed(req: Json, l: Location) {
    match l
    case Banner(i) => i < ArrayLength(GetAt(req, ImpPath))
    case Imp(i) => i < ArrayLength(GetAt(req, ImpPath))
    case Data(i) => i < ArrayLength(GetAt(req, DataPath))
    case _ => true
  }

  /** The slots of two locations do not lead through one another. */
  predicate Apart(l1: Location, l2: Location) {
    !Comparable(ExtSlot(l1), ExtSlot(l2)) && !Comparable(ExtSlot(l1), VendorSlot(l2)) &&
    !Comparable(VendorSlot(l1), ExtSlot(l2)) && !Comparable(VendorSlot(l1), VendorSlot(l2))
  }
}
