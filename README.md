# flexy-react bindings, modelled in Dafny

This project models the core of `src/FlexyComponent.tsx` of flexy-react. That
file holds the React components that attach behaviour to named nodes of an
exported design. A node is named by its `data-name` attribute.

The model has two parts.

- **The `Device` gate** (`device.dfy`). It decides whether a `Device`
  element renders its children. The inputs are the viewport size, the browser
  language and the element's options: orientations, device types, languages
  and pixel breakpoints. The four checks are pure functions. The
  `useState`/`resize` bookkeeping is the class `Device.DeviceGate`.
- **The binding layer** (`binding.dfy`, `dom.dfy`, `components.dfy`). It
  works on an abstract DOM, `Dom.Document`.
  - The document holds a store of element records keyed by node id. Each
    record has JS properties, inline style, attributes, listeners, a parent
    and children.
  - It also holds the container root, a mounted flag (`ref.current` is set)
    and the `data-name` index.
  - `selector('[data-name="X"]')` resolves a name only while the container is
    mounted and the named node still hangs under the root.
  - Each component effect is a method that changes the document in place:
    `Component`, `List` (style and binding), `Item`, `Property`, `Input`,
    `Portal` (mount and cleanup) and `Deletion`.
  - The prop-bag routing rule is a family of functions with lemmas:
    - a key starting with `on` with a handler that is not `undefined` becomes
      a listener whose event name is the key
      with its first `on` removed, lower-cased;
    - every key that does not start with `on` is a property write;
    - cleanup removes the listeners the same rule derives.

`strings.dfy` holds the string primitives the routing rule needs:
`startsWith`, `replace` with a string pattern, `toLowerCase` and `String(n)`.
`wrappers.dfy` holds `Option`.

Two behaviours of the code are easy to misread, and the model keeps both as
written.

- `src/FlexyComponent.tsx:160-161` assigns mobile for a width of 768 or
  less, and the next line overwrites it with tablet for any width of 1024 or
  less. So the model never yields mobile (`Device.CurrentDeviceType`).
- `scroll="horizontal"` sets `overflowY` and `scroll="vertical"` sets
  `overflowX` (`Flexy.ScrollStyle`, `Flexy.ListStyleWrites`).

## Model

| member | source | states |
|---|---|---|
| `Device.CurrentOrientation` | src/FlexyComponent.tsx:146-147 | The orientation is landscape exactly when the width is strictly greater than the height. |
| `Device.SquareIsPortrait` | src/FlexyComponent.tsx:146-147 | A square viewport is portrait. |
| `Device.CurrentDeviceType` | src/FlexyComponent.tsx:158-161 | The result is never mobile. It is tablet exactly when the width is at most 1024, and desktop exactly when the width is above 1024. |
| `Device.DeviceTypeThresholds` | src/FlexyComponent.tsx:158-161 | Widths 768, 769 and 1024 give tablet; 1025 gives desktop. |
| `Device.CheckOrientation` | src/FlexyComponent.tsx:144-155 | Without a window the check is false. With a window and no option it is true. With an option it holds exactly when the current orientation matches: membership for an array, equality for a single value. |
| `Device.CheckDeviceType` | src/FlexyComponent.tsx:157-168 | Without a window, or without the `deviceTypes` option, the check is false. Otherwise it holds exactly when the option matches the current device type. |
| `Device.CheckLanguage` | src/FlexyComponent.tsx:170-178 | Without a window, or without the option, the check is falsy. An array option means membership of the language. A single option means equality with a non-empty string; an empty one is falsy. |
| `Device.ScanBreakpoints` | src/FlexyComponent.tsx:184-195 | The early-return loop passes exactly when every entry holds of the viewport. An entry holds when each given, non-zero maximum and minimum is respected inclusively. |
| `Device.CheckBreakpoints` | src/FlexyComponent.tsx:180-196 | Without a window the check is false. Without a list it is true. Otherwise it is the AND over all entries of the inclusive bound test. |
| `Device.BoundsAreInclusive` | src/FlexyComponent.tsx:186-192 | A viewport exactly at a maximum, or exactly at a minimum, passes. |
| `Device.ZeroBoundIsIgnored` | src/FlexyComponent.tsx:186-192 | A bound of 0 behaves exactly as an absent bound, in each of the four slots: maximum width, maximum height, minimum width and minimum height. |
| `Device.MaxWidthScenario` | src/FlexyComponent.tsx:186-188 | With `max: [500]`, width 600 is refused and width 400 is accepted. |
| `Device.MissingDeviceTypesRendersNothing` | src/FlexyComponent.tsx:163-167 | In a browser, a gate without `deviceTypes` never renders. |
| `Device.MissingLanguageRendersNothing` | src/FlexyComponent.tsx:170-178 | In a browser, a gate without `language` never renders. |
| `Device.Renders` | src/FlexyComponent.tsx:209-220 | With no window, the children render exactly when `default` is set. In a browser, they render exactly when the orientation, device type, language and every breakpoint agree with the viewport. |
| `Device.DeviceGate.constructor` | src/FlexyComponent.tsx:198-207 | The four state slots start as the four checks of the mount-time environment, and the render decision equals `Renders`. |
| `Device.DeviceGate.RendersChildren` | src/FlexyComponent.tsx:209-220 | The rendered output reads the held state: `default` without a window, the AND of the four held results with one. |
| `Device.DeviceGate.HandleResize` | src/FlexyComponent.tsx:133-138 | A resize recomputes orientation, device type and breakpoints, and keeps the language from mount. The render decision equals `Renders` whenever the language result is unchanged. |
| `Strings.ReplaceFirstOfPrefix` | src/FlexyComponent.tsx:89 | `replace` with a pattern the key starts with strips exactly that prefix. |
| `Strings.ReplaceFirstAbsent` | src/FlexyComponent.tsx:563 | `replace` leaves a string without the pattern unchanged. |
| `Strings.ToLower` | src/FlexyComponent.tsx:89 | `toLowerCase` keeps the length, lowers each ASCII capital and keeps every other character. |
| `Strings.IntToString` | src/FlexyComponent.tsx:272 | `String(n)` is non-empty and starts with `-` exactly for a negative number. |
| `Binding.EventName` | src/FlexyComponent.tsx:89 | For a key starting with `on`, the event name is the rest of the key, lower-cased. |
| `Binding.OnClickIsClick` | src/FlexyComponent.tsx:87-89 | `onClick` registers a `click` listener. |
| `Binding.AddListener` | src/FlexyComponent.tsx:88-91 | `addEventListener` with an `undefined` handler registers nothing. Otherwise the listener is registered. Existing listeners keep their place, and the list stays free of duplicates. |
| `Binding.RemoveListener` | src/FlexyComponent.tsx:102-105 | `removeEventListener` removes exactly that listener, and nothing for an `undefined` handler. Every other listener stays. |
| `Binding.AttachListeners` | src/FlexyComponent.tsx:86-95 | The attach loop never moves or removes an existing listener. |
| `Binding.DetachListeners` | src/FlexyComponent.tsx:98-109 | The cleanup loop never adds a listener. |
| `Binding.WriteProps` | src/FlexyComponent.tsx:86-95 | The attach loop's property writes never delete a property. |
| `Binding.AttachListenersShape` | src/FlexyComponent.tsx:86-95 | Attach keeps the existing listeners in place and in order, and appends only listeners the bag derives. An `on*` key with an `undefined` handler derives none. Afterwards a listener is registered exactly when it was before or the bag derives it. No listener is registered twice. |
| `Binding.AttachAddsOnePerEventKey` | src/FlexyComponent.tsx:86-95 | For a bag of fresh, pairwise distinct event props whose handlers are defined, attach appends exactly one listener per key, in bag order. |
| `Binding.WritePropsKeys` | src/FlexyComponent.tsx:92-93 | Attach leaves the element with its old properties plus one for every non-event key of the bag. |
| `Binding.WritePropsLastWins` | src/FlexyComponent.tsx:92-93 | A non-event key ends with the value of its last occurrence in the bag. |
| `Binding.WritePropsUntouched` | src/FlexyComponent.tsx:92-93 | A property the bag does not assign keeps its value. |
| `Binding.DetachIsKeep` | src/FlexyComponent.tsx:98-109 | Cleanup leaves exactly the listeners that no event key of the bag derives, in order. |
| `Binding.AttachThenDetach` | src/FlexyComponent.tsx:83-109 | Attach then cleanup with the same bag leaves the original listeners minus those the bag derives. |
| `Binding.AttachThenDetachRestores` | src/FlexyComponent.tsx:83-109 | When none of the bag's listeners was registered before, attach then cleanup restores the listener list exactly. |
| `Dom.SelectIn` | src/FlexyComponent.tsx:79 | A resolved name means the container is mounted and the node is indexed under that name. It also means the node is stored, is not the root, and has a parent. |
| `Dom.Document.Select` | src/FlexyComponent.tsx:79 | The same facts, read from the document's state. |
| `Dom.DetachedIsNotAttached` | src/FlexyComponent.tsx:686 | A node without a parent, other than the root, no longer hangs under the root, so its name stops resolving. |
| `Dom.Document.CreateElement` | src/FlexyComponent.tsx:447 | `createElement` adds one fresh, empty, detached record under the next id. Everything else stays the same. |
| `Dom.Document.SetContent` | src/FlexyComponent.tsx:448-449 | Property and style writes on an element replace its record and keep its tree links. The document stays well formed. |
| `Dom.Document.SetStyle` | src/FlexyComponent.tsx:85 | One inline style write changes that one entry of that one element. |
| `Dom.Document.Bind` | src/FlexyComponent.tsx:86-95 | The attach loop changes only the element's listeners and properties, as `Bound` gives them. The document stays well formed, and every name resolves as before. |
| `Dom.Document.Unbind` | src/FlexyComponent.tsx:100-107 | The cleanup loop changes only the element's listeners, as `Unbound` gives them. Every name resolves as before. |
| `Dom.Document.AppendChild` | src/FlexyComponent.tsx:587 | A detached, childless node becomes the parent's last child, so no cycle can form. The tree stays well formed. |
| `Dom.AppendedThenDetached` | src/FlexyComponent.tsx:587-601 | Appending a fresh node and then removing it from the same parent gives back the store as it was before the append. |
| `Dom.Document.RemoveChild` | src/FlexyComponent.tsx:601 | `ok` holds exactly when the node is a child of the target; then it is detached. Otherwise (the DOM throws) nothing changes. |
| `Dom.Document.Remove` | src/FlexyComponent.tsx:686 | `remove()` detaches the node from its parent, if it has one. |
| `Dom.Document.ReplaceWith` | src/FlexyComponent.tsx:533 | A detached, childless node takes the replaced node's place among its parent's children. The replaced node is detached. |
| `Flexy.ComponentEffect` | src/FlexyComponent.tsx:79-96 | When the name resolves, the element's visibility becomes `visible` or `hidden` as `visibile` says, and the bag is bound. Otherwise nothing changes. |
| `Flexy.BindingCleanup` | src/FlexyComponent.tsx:98-109 | With a captured element, only its listeners change, as cleanup derives them. Without one, nothing changes. |
| `Flexy.BindThenCleanup` | src/FlexyComponent.tsx:83-109 | Binding then cleaning up an element keeps the property writes. It leaves the listeners minus those the bag derives, and exactly the old listeners when they were disjoint from the bag's. |
| `Flexy.ListStyle` | src/FlexyComponent.tsx:262-272 | The style effect keeps every entry and adds entries only among `overflowX`, `overflowY`, `flexDirection` and `gap`. |
| `Flexy.ListStyleWrites` | src/FlexyComponent.tsx:262-272 | `horizontal` sets `overflowY`, `vertical` sets `overflowX`, a direction sets `flexDirection`. A gap that is given sets `gap` to `String(gap)`. Every entry not written keeps its value. |
| `Flexy.ZeroGapIsWritten` | src/FlexyComponent.tsx:272 | A gap of 0 is written as `"0"`. |
| `Flexy.ListStyleEffect` | src/FlexyComponent.tsx:258-273 | When the list or the item node does not resolve, nothing changes. Otherwise only the list element's style changes, to `ListStyle` of its old style. |
| `Flexy.ApplyListStyle` | src/FlexyComponent.tsx:262-272 | The three blocks in order change only the list element's style, to `ListStyle` of its old style. |
| `Flexy.ApplyScroll` | src/FlexyComponent.tsx:262-265 | The scroll block changes only the list element's style, to `ScrollStyle` of it. |
| `Flexy.ApplyDirection` | src/FlexyComponent.tsx:267-270 | The direction block changes only the list element's style, to `DirectionStyle` of it. |
| `Flexy.ApplyGap` | src/FlexyComponent.tsx:272 | The gap statement changes only the list element's style, to `GapStyle` of it. |
| `Flexy.ListBindEffect` | src/FlexyComponent.tsx:275-287 | When the list resolves, the bag is bound to it. Otherwise nothing changes. |
| `Flexy.ItemBindEffect` | src/FlexyComponent.tsx:336-348 | When the item's own `<div>` is set, the bag is bound to it. Otherwise nothing changes. |
| `Flexy.PropertyEffect` | src/FlexyComponent.tsx:390-404 | The node is resolved only when the nearest common-context ref is set. The whole props object, `name` included, is bound to it. Otherwise nothing changes. |
| `Flexy.DeletionEffect` | src/FlexyComponent.tsx:683-687 | A resolved node is detached from its parent and nothing else changes. Afterwards the name does not resolve. Without a resolved node nothing changes. |
| `Flexy.CopyNonEmpty` | src/FlexyComponent.tsx:451-485 | Each allowlisted key whose computed value is non-empty is copied. Every other key keeps its old entry, or stays absent. |
| `Flexy.InputStyle` | src/FlexyComponent.tsx:449-517 | The input's style always has `boxSizing`, and otherwise only keys of the text or the background allowlist. |
| `Flexy.InputStyleCopiesAllowlist` | src/FlexyComponent.tsx:449-517 | The input's style holds only `boxSizing` (always `border-box`) and allowlisted keys with non-empty source values. A background value wins over a text value for the same key. |
| `Flexy.CreateInput` | src/FlexyComponent.tsx:447-531 | A fresh, detached `<input>` gets the box's class name and the transplanted style, and its props are bound. Nothing else changes. |
| `Flexy.SwapInInput` | src/FlexyComponent.tsx:447-533 | The new input takes the box's place in its parent. The box is detached and no longer hangs under the root. |
| `Flexy.InputEffect` | src/FlexyComponent.tsx:436-533 | When not mounted, or when the box does not resolve, nothing changes. Otherwise the box is replaced by the bound input carrying its class name and the transplanted style, and the box's name stops resolving. One node id is used up exactly when an input is made. |
| `Flexy.ClassNameBecomesClass` | src/FlexyComponent.tsx:563 | The `className` key is renamed to `class`. |
| `Flexy.PortalStep` | src/FlexyComponent.tsx:562-581 | One iteration keeps tag, properties and tree links. An `on*` key changes only the listeners, `style` only the style, and any other key only the attributes, adding exactly its renamed key lower-cased, as `setAttribute` on an HTML element does. |
| `Flexy.PortalElement` | src/FlexyComponent.tsx:562-582 | The prop loop keeps tag, properties and tree links, and loses no listener and no attribute; it also merges `style`. |
| `Flexy.PortalListeners` | src/FlexyComponent.tsx:564-568 | The node's listeners are exactly its old ones in order, followed by those the `on*` keys with defined handlers register, named from the renamed key; none twice. On the fresh `<div>` they are exactly the props' own. |
| `Flexy.PortalEventName` | src/FlexyComponent.tsx:563-566 | For a key without `className` in it, the portal derives the same event name as the other components. |
| `Flexy.PortalAttribute` | src/FlexyComponent.tsx:575-579 | The node's attribute names are exactly its old ones plus the renamed, lower-cased non-event, non-`style` keys. Each such attribute holds the value of the last prop that maps to it, so keys that differ only in case set one attribute. |
| `Flexy.CaseVariantsShareAttribute` | src/FlexyComponent.tsx:575-579 | `tabIndex` and `tabindex` both set the attribute `tabindex`. |
| `Flexy.PortalStyleUntouched` | src/FlexyComponent.tsx:569-574 | Without a `style` prop, the node's style is untouched. |
| `Flexy.PortalStyleMerged` | src/FlexyComponent.tsx:570-574 | A single `style` object is merged into the node's style key by key. |
| `Flexy.PortalRoundTrip` | src/FlexyComponent.tsx:584-607 | Removing the synthesised node from the node it was appended to gives back the store with that node added, detached. |
| `Flexy.Portal.constructor` | src/FlexyComponent.tsx:549 | The portal state starts as null. |
| `Flexy.Portal.Synthesize` | src/FlexyComponent.tsx:559-582 | A fresh, detached `<div>` is built by the prop loop. Nothing else changes. |
| `Flexy.Portal.Mount` | src/FlexyComponent.tsx:555-595 | When not mounted, nothing changes. Otherwise the new node is appended under the named node if the name is given and resolves. It goes nowhere if the name is given and does not resolve, and under the root if no name is given. The portal state is set in every mounted case, and exactly one node id is used up then. |
| `Flexy.Portal.Cleanup` | src/FlexyComponent.tsx:597-608 | The node is removed from the named target only if that target still resolves; otherwise nothing changes. Without a name it is removed from the root. `ok` is false exactly when `removeChild` would throw. The portal state is reset exactly when `ok` holds, since the throw skips `setPortal(null)`. |

## Left out

- `Floating` and `Fullsize` are not modelled. Their fit-scale geometry is floating-point division over `round`, and `src/utils/useFlexy` is not part of this model.
- `src/context/ContainerContext.tsx` is not part of this model. It is React context and provider plumbing, and CSS text.
- React scheduling is not modelled: `useState`, `useEffect` timing and dependency lists, `useMemo`, `ReactDOM.createPortal`, `CommonProvider` values, `ListPortal` and `ActualPortal`. Each effect is a method call. `Component` (src/FlexyComponent.tsx:79) and `List` (src/FlexyComponent.tsx:243-244) call `selector` at render time and their effects use what it returned; `Flexy.ComponentEffect`, `Flexy.ListStyleEffect` and `Flexy.ListBindEffect` look the name up when the effect runs, so a node removed between render and effect is not seen. A cleanup receives its element as a parameter: `Component` and `List` pass what their effect captured; `Item`'s cleanup re-reads `ref.current` at cleanup time (src/FlexyComponent.tsx:350-351), and its caller passes that.
- `useList`, its `create`/`select`/`getHtml` functions and `Item`'s `dangerouslySetInnerHTML` are not modelled. Their implementations are not part of this model.
- `selector` is an index lookup plus a check that the node still hangs under the root. A `data-name` attribute set later, such as through portal attributes, is not added to the index.
- `Property`'s selector is scoped to the nearest common-context `ref`: an `Item`'s `<div>` inside an item, or the container's own `ref` directly under the container (src/context/ContainerContext.tsx:95). `Component` and `List` provide no `ref`, so no lookup happens there. The model resolves every name in the container's index and gates the lookup on that `ref` being set; scoping to an item's subtree is not modelled.
- `window.getComputedStyle` is a parameter (`computedStyle`). `navigator.language` and the viewport size are fields of `Device.Env`. Registering `resize` on `window` is left out; `Device.DeviceGate.HandleResize` is the handler itself.
- `Flexy.Gap`: a numeric gap is an integer. A fractional gap such as `1.5`, written by `String(gap)` as `"1.5"`, is not modelled.
- `Device.Breakpoint` bounds are integers. Fractional and `NaN` bounds are not modelled.
- `Strings.ToLower`: lowers ASCII letters only. Unicode case mapping is not modelled.
- `Dom.Document.Bind`: a property write is a map entry. Setter side effects of DOM properties, such as `className` changing the `class` attribute, are not modelled. Values are stored as given, without stringification.
- `Flexy.PortalStep`: an attribute keeps the prop's value as given. `setAttribute` stores `String(value)`, so `hidden={false}` gives `hidden="false"`, which still hides the element.
- `Dom.Document.Bind`, `Dom.Document.Unbind` and `Flexy.Portal.Synthesize` run their prop loops on the element's record and store it once after the loop. No other code runs during the loop, so the end state is the same as with writes in place.
- `Flexy.InputEffect`: the input's `className` is the box's `className` property read as a string; a non-string property reads as the empty string.
- `Flexy.Portal.Mount`: the target is resolved before the node is created. Creating a detached node never changes what a name resolves to, so the outcome is the same.
- Exceptions are not modelled as control flow. `Dom.Document.RemoveChild` reports a throwing call as `ok == false` and changes nothing; `Flexy.Portal.Cleanup` then also leaves `portal` set, as the throw would skip the rest of the cleanup.
- `Binding.AddListener`: a handler that is a primitive other than `undefined`, such as `false` from `cond && fn`, makes `addEventListener` throw a `TypeError`. The model registers it like a function; only `undefined` is treated as registering nothing.
