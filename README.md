# Allegro bid adapter: request post-processing

This project models the part of the Allegro bid adapter
(`modules/allegroBidAdapter.js`) that post-processes the OpenRTB request built
by the shared converter before it is sent:

- the `imp` hook turns the integer flags `banner.topframe` and `secure` into
  booleans; the `request` hook does the same for `device.dnt`,
  `device.sua.mobile` and `test` (a present value becomes `value === 1`, and an
  absent one is not created);
- unless the `allegro.convertExtensionFields` setting turns it off, the
  request hook then runs `convertExtensionFields`. This visits a fixed list of
  places:
  - every imp entry and its banner;
  - app, site, publisher and user;
  - every user data entry;
  - device, geo, regs and source;
  - the request itself.

  At each place, a truthy `ext` is moved by `moveExt` under a vendor key such
  as `[com.google.doubleclick.imp]`, as a shallow copy. For `regs`,
  `regs.ext.gdpr` is coerced first;
- `buildRequests` returns a request descriptor: a JSON `POST` of the
  converter's OpenRTB request to the URL `RequestUrl` picks, a truthy
  `allegro.bidderUrl` or else `https://dsp.allegro.com/bid`;
- `onBidWon` fires the billing pixel when both the pixel setting and
  `bid.burl` are truthy.

The request is a JSON value tree (`JsonValues.Json`), and a JavaScript object
inside it is named by its path from the root (`Paths`).

- **Functions.** Each step the adapter takes is a function on trees:
  - `FlagCoercion` has the coercions;
  - `ExtensionRelocation` has `moveExt`, the table of visited places
    (`Location`) with their vendor keys, and the whole conversion. The
    conversion (`Relocated`) is a left fold (`Walks.Fold`) of one step per
    place, in the adapter's order.
- **Class.** The hooks themselves are methods of the class
  `RequestTree.JsonTree`. It holds the request in a field and changes it in
  place:
  - `Assign` and `Delete` are the two mutations the adapter performs;
  - the `forEach` walks are `while` loops;
  - each method is proved to leave the field equal to the specification
    function of its old value.
- **Lemmas.** The lemmas in `RelocationSteps`, `RelocationProperties` and
  `AllegroAdapter` state what the adapter promises:
  - where each `ext` ends up;
  - that nothing else in the request changes;
  - that the walked arrays keep their length and entries in place;
  - that the conversion is idempotent;
  - the exact inputs on which it throws;
  - that the flags survive the conversion.

## Model

| member | source | states |
|---|---|---|
| JsonValues.Truthy | modules/allegroBidAdapter.js:76 | JavaScript truthiness of a property read: `undefined`, `null`, `false`, `0` and `""` are falsy, and every array and object, even an empty one, is truthy. It decides `!obj.ext` at line 76 and each `?.ext` guard at lines 17-70 |
| JsonValues.Field | modules/allegroBidAdapter.js:17-70 | the property read `j.k`: the value of key `k` of an object, and `undefined` when the key is missing or `j` is not an object |
| Paths.GetAt | modules/allegroBidAdapter.js:17-70 | the optional-chaining read `x?.a?.b` along a path of keys and indices, which gives `undefined` as soon as one step is missing |
| Paths.UpdateAt | modules/allegroBidAdapter.js:79-81 | the in-place change of the object a path names, as seen from the root: the value there is replaced by the change applied to it, and the request is left as it was when the path leads nowhere |
| ExtensionRelocation.At | modules/allegroBidAdapter.js:17-71 | the path of each of the twelve visited places: `imp[i].banner`, `imp[i]`, `app`, `site`, `site.publisher`, `user`, `user.data[i]`, `device`, `device.geo`, `regs`, `source` and the request itself |
| ExtensionRelocation.VendorKey | modules/allegroBidAdapter.js:17-71 | the literal vendor key each place's `ext` is moved under, from `[com.google.doubleclick.banner_ext]` to `[com.google.doubleclick.bid_request]`, in source order |
| ExtensionRelocation.Iterable | modules/allegroBidAdapter.js:15-16 | `if (x) x.forEach(…)` runs without a TypeError: the property is falsy, or an array with no `null` entry (the `forEach` over `user.data` at lines 42-43 is the same) |
| JsonValues.Spread | modules/allegroBidAdapter.js:79 | the properties of `{...v}`: an object's own keys, one property per index of an array or string, none for any other value |
| FlagCoercion.CoercedAt | modules/allegroBidAdapter.js:92-97 | one guarded coercion `if (x.f !== undefined) x.f = x.f === 1`: the value at the path, if present, is replaced by its `Flag`, and a missing path is left missing (its effect is stated by `CoercedAtEffect`) |
| FlagCoercion.ImpFlagsCoerced | modules/allegroBidAdapter.js:92-97 | the imp after the `imp` hook: `banner.topframe` coerced, then `secure` (its effect is stated by `ImpFlagsCoercion`) |
| FlagCoercion.RequestFlagsCoerced | modules/allegroBidAdapter.js:103-113 | the request after the coercions of the `request` hook: `device.dnt`, `device.sua.mobile`, then `test` (its effect is stated by `RequestFlagsCoercion`) |
| ExtensionRelocation.MovedCopy | modules/allegroBidAdapter.js:58-63 | what the vendor key of a place receives for a truthy `ext`: `{...ext}`, taken after `ext.gdpr` is coerced when the place is `regs` |
| ExtensionRelocation.Block | modules/allegroBidAdapter.js:17-71 | the block the adapter runs on the object at one place: when its `ext` is truthy, `ext` is deleted and the vendor key receives `MovedCopy`; otherwise the object is left alone (`BlockIsMoveExt` and `RegsBlockInSteps` prove it is the adapter's `moveExt` call, with the `gdpr` coercion first for `regs`) |
| ExtensionRelocation.Apply | modules/allegroBidAdapter.js:17-71 | the request after the block for one place, applied to the object found at that place's path, with nothing done when the path leads nowhere (the `?.` reads) |
| ExtensionRelocation.ExtLocations | modules/allegroBidAdapter.js:15-71 | the places visited for a request in the adapter's order: banner then entry for each imp entry, app, site, publisher, user, each user data entry, device, geo, regs, source, the request; an `imp` or `user.data` that is not an array contributes no places |
| ExtensionRelocation.Relocated | modules/allegroBidAdapter.js:14-73 | the request after `convertExtensionFields` returns: the blocks of `ExtLocations` applied one after another, each to the result of the one before |
| ExtensionRelocation.Relocatable | modules/allegroBidAdapter.js:14-48 | `convertExtensionFields` runs without a TypeError: the request is not `null`, and `imp` and `user.data` are each falsy or an array with no `null` entry |
| ExtensionRelocation.ExtensionFieldsConverted | modules/allegroBidAdapter.js:14-73 | `convertExtensionFields` as a function: a TypeError on a request that is not `Relocatable`, and `Relocated` otherwise |
| FlagCoercion.Flag | modules/allegroBidAdapter.js:103-113 | a coerced flag is a boolean, and it is `true` exactly for the number 1, so a flag already `true` becomes `false` |
| FlagCoercion.CoercedAtEffect | modules/allegroBidAdapter.js:103-105 | one coercion gives the field the flag of its old value. It leaves an absent field absent and changes no path apart from the field's own |
| FlagCoercion.ImpFlagsCoercion | modules/allegroBidAdapter.js:90-99 | the imp hook coerces `banner.topframe` and `secure` when present, creates neither when absent, and leaves every other path of the imp as it was |
| FlagCoercion.RequestFlagsCoercion | modules/allegroBidAdapter.js:103-113 | the request hook coerces `device.dnt`, `device.sua.mobile` and `test` when present, creates none when absent, and leaves every other path as it was |
| ExtensionRelocation.MovedExt | modules/allegroBidAdapter.js:75-82 | on a falsy `ext` the object is unchanged. On a truthy one the object loses `ext` and `newKey` holds `{...ext}`. An object `ext` is copied key for key, and every other key is untouched |
| RelocationSteps.DistinctLocationsApart | modules/allegroBidAdapter.js:14-73 | the `ext` and vendor-key slots of two distinct visited places never lie on one path, so the visits cannot interfere |
| RelocationSteps.BlockIsMoveExt | modules/allegroBidAdapter.js:17-71 | away from `regs`, the block for a place is `moveExt` with that place's vendor key |
| RelocationSteps.RegsBlockInSteps | modules/allegroBidAdapter.js:58-64 | the `regs` block, written as "coerce `regs.ext.gdpr`, then `moveExt`", gives the relocation step for `regs` |
| RelocationSteps.ApplySlots | modules/allegroBidAdapter.js:14-73 | after the step for a place, its `ext` is gone if it was truthy and otherwise as it was. The vendor key then holds the moved copy, or what it held before |
| RelocationSteps.ApplyFrame | modules/allegroBidAdapter.js:75-82 | a step changes nothing at a path that does not lead through, or to, its two slots |
| RelocationSteps.ApplyNoOp | modules/allegroBidAdapter.js:76-78 | with no truthy `ext` at a place, its step leaves the request unchanged |
| RelocationSteps.ApplyShape | modules/allegroBidAdapter.js:75-82 | a step keeps the shape of every value not at or below its slots: objects stay objects, arrays keep their length, and any other value stays as it was |
| RelocationProperties.ApplyAllSlots | modules/allegroBidAdapter.js:14-73 | after any sequence of steps, the slots of a place in the sequence hold exactly what its own step put there. The slots of any other place are as they were |
| RelocationProperties.ApplyAllFrame | modules/allegroBidAdapter.js:14-73 | a sequence of steps changes nothing at a path clear of every slot where something is moved |
| RelocationProperties.ListedInTable | modules/allegroBidAdapter.js:15-71 | the order of visits contains exactly the places the adapter visits for this request: one banner and one imp per imp entry, one data entry per user data entry, and the nine fixed places (app, site, publisher, user, device, geo, regs, source and the request) |
| RelocationProperties.RelocationMoves | modules/allegroBidAdapter.js:14-73 | at every visited place, a truthy `ext` is removed and its shallow copy (the `gdpr`-coerced one for `regs`) is stored under the vendor key. A falsy `ext` and the vendor key stay as they were |
| RelocationProperties.RelocationFrame | modules/allegroBidAdapter.js:14-73 | the conversion changes nothing at a path that leads neither through nor to a slot of a place with something to move |
| RelocationProperties.RelocationNoOp | modules/allegroBidAdapter.js:14-73 | when no visited place has a truthy `ext`, the conversion leaves the request unchanged |
| RelocationProperties.WalkedArrayKept | modules/allegroBidAdapter.js:15-48 | the conversion keeps the length of `imp` and of `user.data`, and whether each can be walked without a TypeError |
| RelocationProperties.RelocationKeepsShape | modules/allegroBidAdapter.js:14-73 | the converted request has the same visited places as the original, and it throws on a second conversion exactly when the original would |
| RelocationProperties.RelocationIdempotent | modules/allegroBidAdapter.js:14-73 | after the conversion no visited place has a truthy `ext`, and converting again changes nothing |
| RelocationProperties.ConversionIdempotent | modules/allegroBidAdapter.js:14-73 | a successful conversion of a converted request succeeds and returns the same request |
| RelocationProperties.ImpEntryRelocation | modules/allegroBidAdapter.js:15-23 | each imp entry keeps its index. Its own `ext` and its banner's `ext`, when truthy, move to their vendor keys as shallow copies. An entry with neither is unchanged |
| RelocationProperties.DataEntryRelocation | modules/allegroBidAdapter.js:42-48 | each user data entry keeps its index, and a truthy `ext` moves to its vendor key as a shallow copy. An entry without one is unchanged |
| RelocationProperties.GdprCoercedOnMove | modules/allegroBidAdapter.js:58-64 | for an object `regs.ext`, the moved copy holds `gdpr` coerced (absent stays absent) and every other key as it was, and `regs.ext` is gone |
| RelocationProperties.ImpEntryBeforeStep | modules/allegroBidAdapter.js:16-17 | when the walk reaches imp entry `i`, the entry is still the one the array held at the start |
| RelocationProperties.DataEntryBeforeStep | modules/allegroBidAdapter.js:43-44 | when the walk reaches user data entry `i`, the entry is still the one the array held at the start |
| RelocationProperties.DataPathBeforeWalk | modules/allegroBidAdapter.js:15-42 | the steps before the user data walk leave `user.data` as it was, so the walk sees the original array |
| RelocationProperties.ImpFoldInOrder | modules/allegroBidAdapter.js:15-23 | walking the imp entries one at a time, banner before entry, is the steps of the first `n` imp places in table order |
| RelocationProperties.DataFoldInOrder | modules/allegroBidAdapter.js:42-48 | walking the user data entries one at a time is the steps of the first `n` data places in table order |
| AllegroAdapter.ConvertExtensionsEnabled | modules/allegroBidAdapter.js:115-117 | conversion runs when the setting is absent or exactly `true`. Any other value, `1` and `"true"` included, turns it off |
| AllegroAdapter.PostProcessedRequest | modules/allegroBidAdapter.js:100-122 | the request hook throws exactly when conversion is on and the request cannot be walked. With conversion off, it returns the flag-coerced request |
| AllegroAdapter.CoercionKeepsWalks | modules/allegroBidAdapter.js:103-118 | flag coercion changes no slot of any place, neither walked array, nor whether the conversion throws |
| AllegroAdapter.DisabledKeepsExtensions | modules/allegroBidAdapter.js:115-121 | with conversion off, the hook never throws and every `ext` stays where it was |
| AllegroAdapter.EnabledRelocates | modules/allegroBidAdapter.js:115-121 | with conversion on and a walkable request, no visited place keeps a truthy `ext`, and each moved copy sits under its vendor key |
| AllegroAdapter.PostProcessedFlags | modules/allegroBidAdapter.js:103-121 | whatever the setting, a request the hook returns carries the three coerced flags, which the conversion does not touch |
| AllegroAdapter.RequestUrl | modules/allegroBidAdapter.js:135 | a truthy `allegro.bidderUrl` is used as given. Otherwise the default endpoint is used, so the URL is never falsy |
| AllegroAdapter.BuildRequests | modules/allegroBidAdapter.js:134-145 | the request is a JSON `POST` of the converted OpenRTB request to the URL `RequestUrl` picks: a truthy `allegro.bidderUrl` as given, else `https://dsp.allegro.com/bid` |
| AllegroAdapter.WinPixel | modules/allegroBidAdapter.js:152-158 | the pixel fires, with `burl` unchanged, exactly when the setting and `bid.burl` are truthy. With a truthy setting, a `null` bid throws |
| RequestTree.JsonTree.constructor | modules/allegroBidAdapter.js:101 | the tree holds the request the converter built |
| RequestTree.JsonTree.Assign | modules/allegroBidAdapter.js:81 | `obj[key] = v` sets that key of the object at the path and changes nothing else |
| RequestTree.JsonTree.Delete | modules/allegroBidAdapter.js:80 | `delete obj[key]` removes that key of the object at the path and changes nothing else |
| RequestTree.JsonTree.MoveExt | modules/allegroBidAdapter.js:75-82 | the in-place `moveExt` leaves the request as `MovedExt` applied at the path |
| RequestTree.JsonTree.CoerceFlag | modules/allegroBidAdapter.js:103-105 | one guarded coercion in place leaves the request as `CoercedAt` of the old one |
| RequestTree.JsonTree.CoerceImpFlags | modules/allegroBidAdapter.js:90-99 | the imp hook leaves the imp as `ImpFlagsCoerced` of the one `buildImp` returned |
| RequestTree.JsonTree.CoerceRequestFlags | modules/allegroBidAdapter.js:103-113 | the three coercions leave the request as `RequestFlagsCoerced` of the built one |
| RequestTree.JsonTree.Visit | modules/allegroBidAdapter.js:17-71 | `if (x?.ext) moveExt(x, key)` for a place other than `regs` is the relocation step for that place |
| RequestTree.JsonTree.VisitRegs | modules/allegroBidAdapter.js:58-64 | the `regs` block, coercion then move, is the relocation step for `regs` |
| RequestTree.JsonTree.VisitImpEntry | modules/allegroBidAdapter.js:16-23 | the walk body throws exactly on a `null` entry. Otherwise it takes the banner's step, then the entry's |
| RequestTree.JsonTree.WalkImps | modules/allegroBidAdapter.js:16-23 | the `forEach` loop throws exactly when `imp` holds a `null` entry. Otherwise it leaves the request with every imp entry walked in order |
| RequestTree.JsonTree.RelocateImps | modules/allegroBidAdapter.js:15-24 | the guarded imp walk throws exactly when `imp` is truthy and not a walkable array. Otherwise it takes the steps of every imp place |
| RequestTree.JsonTree.VisitDataEntry | modules/allegroBidAdapter.js:43-47 | the walk body throws exactly on a `null` entry. Otherwise it takes the entry's step |
| RequestTree.JsonTree.WalkUserData | modules/allegroBidAdapter.js:43-47 | the `forEach` loop throws exactly when `user.data` holds a `null` entry. Otherwise the request has every entry walked in order |
| RequestTree.JsonTree.RelocateUserData | modules/allegroBidAdapter.js:42-48 | the guarded data walk throws exactly when `user.data` is truthy and not a walkable array. Otherwise it takes the steps of every data place |
| RequestTree.JsonTree.VisitBeforeData | modules/allegroBidAdapter.js:26-40 | the app, site, publisher and user blocks are those four steps in that order |
| RequestTree.JsonTree.VisitDeviceGeo | modules/allegroBidAdapter.js:50-56 | the device and geo blocks are those two steps in that order |
| RequestTree.JsonTree.VisitRegsBlock | modules/allegroBidAdapter.js:58-64 | the `regs` block is the one step for `regs` |
| RequestTree.JsonTree.VisitSourceRequest | modules/allegroBidAdapter.js:66-72 | the source and request blocks are those two steps in that order |
| RequestTree.JsonTree.VisitAfterData | modules/allegroBidAdapter.js:50-72 | the five blocks after the data walk are their steps in source order |
| RequestTree.JsonTree.ConvertExtensionFields | modules/allegroBidAdapter.js:14-73 | `convertExtensionFields` throws exactly when the request is `null` or a walk cannot run. Otherwise it leaves the request as `Relocated` of the old one |
| RequestTree.JsonTree.PostProcessRequest | modules/allegroBidAdapter.js:100-122 | the request hook throws exactly when `PostProcessedRequest` does. Otherwise it leaves the request as that function's value |

Two behaviours of the code are worth stating outright:

- `Flag` coerces every present value by `=== 1` (lines 93, 96, 104, 108 and
  112), so a flag that already holds `true` becomes `false`.
- `onBidWon` passes `bid.burl` to `triggerPixel` unchanged (line 156): the
  adapter expands no macros in it, and `WinPixel` returns it as it is.

## Left out

- The shared OpenRTB converter (`ortbConverter`, `buildImp`, `buildRequest`,
  `toORTB`, `fromORTB`) is not part of this model. The hooks start from the
  objects the converter returns, given as inputs.
- `interpretResponse` only hands the response body to the converter's
  `fromORTB`, which is not part of this model.
- `isBidRequestValid`, the `spec` constants and `registerBidder` are
  registration boilerplate with no logic to prove.
- `config.getConfig` is not modelled as a lookup: each setting is passed in as
  the value read (`None` when unset).
- `triggerPixel` and the HTTP transport are I/O: `WinPixel` returns the URL
  that would be passed to `triggerPixel`.
- The request is a tree. JavaScript objects shared between two places of the
  request (aliasing) and the insertion order of object keys are not modelled.
- Numbers are integers. Fractional numbers, `NaN` and `-0` matter only to
  truthiness and to `=== 1`, and both are modelled for integers alone.
- The spread of a string is modelled as one property per character of the
  model's string, not per UTF-16 code unit.
- An input that is `undefined` rather than `null` is not modelled, whether
  it is the result of `buildRequest` or `buildImp` or the bid of `onBidWon`.
  `Json` has no `undefined` value, and `null` behaves the same in every
  property read these functions make.
- RequestTree.JsonTree.ConvertExtensionFields: says nothing of the request after
  a TypeError, although the adapter has by then already changed the objects it
  visited. The same holds for `RelocateImps`, `RelocateUserData`, `WalkImps`,
  `WalkUserData` and `PostProcessRequest`.
