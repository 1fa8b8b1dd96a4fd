# Fiber2D node components: a Dafny model

This project models two pieces of Fiber2D's node-component layer.

The first is the per-node component registry from `Node+Component.swift`. A node holds an ordered list of components. Each component has an integer tag and an `owner` back-reference. The registry offers:

- first-match lookup by tag;
- a guarded append, which stops on an owned component and refuses a duplicate tag;
- removal by tag, removal by identity, and removal of everything.

Each detaching path except `remove(component:)` runs the component's `onRemove` hook and then clears `owner`; `remove(component:)` only takes the instance out of the list (see Findings).

The second is `ColorNode.swift`: the solid-colour quad component and the node that hosts it. The quad owns a four-vertex buffer with the corners bottom-left, bottom-right, top-right and top-left, each at z = 0 and w = 1. It repositions those corners whenever its owner's content size changes. It subscribes to that event in `onAdd` and cancels the subscription in `onRemove`. The ColorNode recolours every vertex with its premultiplied displayed colour after each write to `color` or `opacity` and after displayed-opacity propagation.

Files:

- `geometry.dfy` (module `Geometry`) holds the value types (vectors, colours, sizes, vertices, the vertex buffer), the two buffer assignments (`WithPositions`, `WithColor`), the quad's corner list and initial buffer, the colour maths, and lemmas about them.
- `components.dfy` (module `Components`) holds the classes `Node` and `Component`. Component polymorphism is a `kind` field, either `Plain` (the base component) or `BackgroundColor` (the quad); each hook dispatches on it. The node holds:
  - the component list;
  - the content-size subscribers, a set keyed by component identity;
  - a log of hook calls, each recording the owner the component saw at that moment.

  The module also has pure functions over component lists (`FirstIndexWithTag`, `Without`, `Matching`) that the methods are proved against, with lemmas about those functions.
- `colornode.dfy` (module `ColorNodes`) holds the class `ColorNode`, which extends a `Node` by composition: its `node` field is the Node part.
- `scenarios.dfy` (module `Scenarios`) holds client walk-throughs proved from the contracts alone: attach, lookup and detach; geometry following the size and stopping after detach; zero opacity giving transparent vertices; removal by identity leaving the component owned.

Invariants kept by every registry operation (`Node.Valid`):

- tags are unique within a node;
- every listed component is owned by the node;
- every listed quad is subscribed to the node's size event;
- every subscriber is a quad the node owns.

A fifth property, `Node.SubscribersListed`, says a quad is subscribed exactly while it is listed. The constructor establishes it, and `Add`, `removeComponent(by:)`, `removeAllComponents()` and the corrected identity removal keep it. `remove(component:)` as written breaks it for a quad: the removed quad stays subscribed (and owned); see Findings. For owners, each detaching path proves that every component it takes out ends with `owner` null, while `remove(component:)` proves the removed component still has this node as owner.

Where the doc comments and the code disagree, the model follows the code:

- `removeComponent(by:)` always returns false, against the `@return` at `Fiber2D/Node+Component.swift:50`.
- `remove(component:)` runs no detach sequence (its doc comment at `Fiber2D/Node+Component.swift:66-70` promises none either, but the other removal paths run one).
- `ColorNode.init` builds the quad with the raw colour, not the premultiplied one, so right after construction the vertex colours need not equal the premultiplied displayed colour.

## Model

| member | source | states |
|---|---|---|
| `Components.FirstIndexWithTag` | Fiber2D/Node+Component.swift:18-20 | Returns None exactly when no entry carries the tag. Otherwise returns a position holding the tag with no earlier entry holding it (first match). |
| `Components.Node.GetComponent` | Fiber2D/Node+Component.swift:18-20 | `getComponent(by:)`: returns "not found" exactly when no listed component has the tag. Otherwise returns the listed component with that tag that comes before every other one with it. |
| `Components.AppendKeepsTagsUnique` | Fiber2D/Node+Component.swift:33-36 | Appending a component whose tag is absent keeps tags unique. The appended component is then what lookup by its tag finds. |
| `Components.Node.Add` | Fiber2D/Node+Component.swift:28-44 | Requires an unowned component (the source's fatal error). Returns true exactly when the tag was absent. On true: appended at the end with earlier entries unchanged, owner set to this node, then the attach hook runs having seen that owner, quads subscribed, invariant kept. On false: list, owner, log and subscribers unchanged. Keeps "subscribed exactly while listed". |
| `Components.Component.OnAdd` | Fiber2D/ColorNode.swift:76-81 | The base hook is logged with the owner it saw. A quad is then added to its owner's size subscribers; a plain component is not. |
| `Components.Component.OnRemove` | Fiber2D/ColorNode.swift:83-87 | A quad leaves its owner's subscribers while the owner is still set. The base hook is then logged with that owner, and the owner is cleared. |
| `Components.Component.Subscription` | Fiber2D/ColorNode.swift:78-85 | The subscriber entry a component holds while attached: exactly the quads among the singleton list of itself. |
| `Components.Component.BackgroundColorRenderComponent` | Fiber2D/ColorNode.swift:56-74 | A new quad is unowned, keeps the given tag, and holds the initial quad buffer for the size and raw colour. |
| `Components.Component.Update` | Fiber2D/ColorNode.swift:89-94 | `update(for:)`: the buffer becomes the old buffer with its positions replaced by the corners of the new size. It keeps four vertices. |
| `Components.Node.Detach` | Fiber2D/Node+Component.swift:55-57 | One detach: the hook is logged with this node as owner, then the owner is null. Only that component's subscription is dropped, and "subscribers are owned quads" is preserved. |
| `Components.Node.FilterVisit` | Fiber2D/Node+Component.swift:54-62 | One call of the filter closure takes the filter from i visited entries to i + 1. The kept list, log, subscribers and owners move accordingly. |
| `Components.Node.RemoveComponent` | Fiber2D/Node+Component.swift:52-64 | The list becomes the entries with another tag, in order. The matching entries run their hooks in list order, each while owned, and end with owner null. The others stay owned. Only the matching quads are unsubscribed. The invariant is kept. The result is the as-written comparison and is always false. Keeps "subscribed exactly while listed". |
| `Components.Node.ValidAfterRemoval` | Fiber2D/Node+Component.swift:52-63 | After the filter, the node's registry invariant holds again. |
| `Components.WithoutMatchingSnoc` | Fiber2D/Node+Component.swift:54-62 | Filtering visits entries in order. Extending the list by one entry extends the kept list or the dropped list by that entry, according to its tag. |
| `Components.WithoutMatchingMembers` | Fiber2D/Node+Component.swift:54-62 | The kept entries are exactly those with another tag. The dropped entries are exactly those with the tag. Together they account for every entry. |
| `Components.WithoutKeepsTagsUnique` | Fiber2D/Node+Component.swift:54-62 | Filtering by tag keeps tags unique. |
| `Components.WithoutAbsentTag` | Fiber2D/Node+Component.swift:52-63 | Removing a tag nobody carries leaves the list as it was and drops nothing. |
| `Components.WithoutUniqueTag` | Fiber2D/Node+Component.swift:52-63 | With unique tags, removing the tag at position k drops exactly that entry and keeps the others in order. |
| `Components.RemoveReportAsWrittenNeverTrue` | Fiber2D/Node+Component.swift:63 | The as-written report `oldCount < components.count` is false for every list and tag. |
| `Components.RemoveReportAsWrittenMissesRemoval` | Fiber2D/Node+Component.swift:46-63 | Whenever some entry carries the tag, the list shrinks and the as-written report is still false. |
| `Components.RemoveReportIntendedExact` | Fiber2D/Node+Component.swift:46-51 | The report the `@return` doc comment at :50 promises (the count shrank) is true exactly when some entry carried the tag. |
| `Components.IndexOf` | Fiber2D/Node+Component.swift:73 | The instance lookup behind `removeObject`: returns None exactly when the instance is absent. Otherwise returns its first position. |
| `Components.QuadsWithout` | Fiber2D/Node+Component.swift:54-62 | The quads left after filtering by tag are exactly the list's quads minus the quads dropped by the filter. |
| `Components.QuadsRemoveAt` | Fiber2D/Node+Component.swift:72-74 | With unique tags, taking out the entry at k takes out exactly that entry's quad (if it is one) from the list's quads. |
| `Components.RemoveAtKeepsTagsUnique` | Fiber2D/Node+Component.swift:72-74 | Taking one entry out keeps tags unique. |
| `Components.Node.Remove` | Fiber2D/Node+Component.swift:72-74 | `remove(component:)` as written: returns true exactly when the instance was listed. It takes that entry out and keeps the rest in order. Only the list changes: on success the component is still owned by this node. A removed quad stays subscribed, so "subscribed exactly while listed" no longer holds. |
| `Components.Node.RemoveAndDetach` | Fiber2D/Node+Component.swift:66-74 | Removal by identity with the detach sequence the other removal paths (:55-57, :81-82) use. Returns true exactly when listed. On true: the hook is logged while owned, the owner is null, the entry is removed in order, and only its subscription is dropped. On false: nothing changes. Keeps "subscribed exactly while listed". |
| `Components.Node.RemoveAllComponents` | Fiber2D/Node+Component.swift:79-86 | Every component, in list order, runs its detach hook while owned and ends with owner null. All their subscriptions are cancelled and the list is empty. Keeps "subscribed exactly while listed". |
| `Components.Node.SetContentSize` | Fiber2D/ColorNode.swift:78-80 | Firing the size-changed event: the size is stored and every subscribed quad's positions become the new corners. No other component's buffer is written, so detached quads are not reached. |
| `Components.Node.UpdateDisplayedOpacity` | Fiber2D/ColorNode.swift:44-45 | The base hook stores the propagated displayed opacity of the parent; nothing else of the node changes. |
| `Geometry.QuadCorners` | Fiber2D/ColorNode.swift:90-93 | Four corners, each at z = 0 and w = 1, each with x in {0, width} and y in {0, height}. |
| `Geometry.QuadGeometryShape` | Fiber2D/ColorNode.swift:56-72 | The constructor's buffer has exactly four vertices at (0,0), (w,0), (w,h), (0,h) with z = 0 and w = 1, in that order. Every texture coordinate is zero, every colour is the given one, and the index buffer is empty. |
| `Geometry.QuadCornersWinding` | Fiber2D/ColorNode.swift:57-69 | The corner order encloses signed area width × height, so it runs counter-clockwise for every positive size. |
| `Geometry.WithPositions` | Fiber2D/ColorNode.swift:90-93 | Assigning positions: the positions become exactly the given ones. Colours, texture coordinates, length and indices are kept. |
| `Geometry.RepositionForgetsPrior` | Fiber2D/ColorNode.swift:89-94 | Repositioning to a size's corners does not depend on the prior positions: buffers that differ only in positions end equal. |
| `Geometry.RepositionIdempotent` | Fiber2D/ColorNode.swift:89-94 | Repositioning twice for the same size equals doing it once. |
| `Geometry.RepositionMatchesConstruction` | Fiber2D/ColorNode.swift:89-94 | After `update(for:)`, the positions are exactly those a freshly built quad of the new size has (same corners, same order as at :57-69). |
| `Geometry.WithColor` | Fiber2D/ColorNode.swift:50 | Assigning the colour: every vertex has that colour. Positions, texture coordinates, length and indices are kept. |
| `Geometry.RecolorLastWins` | Fiber2D/ColorNode.swift:49-51 | Recolouring twice equals recolouring once with the second colour. |
| `Geometry.PremultipliedDisplayedColor` | Fiber2D/ColorNode.swift:50 | The premultiplied displayed colour is (r·o, g·o, b·o, o) for displayed opacity o. Red at 0.5 gives (0.5, 0, 0, 0.5), and opacity 0 gives transparent black. |
| `ColorNodes.ColorNode.VertexColor` | Fiber2D/ColorNode.swift:50 | The vertex colour is the node's RGB scaled by its displayed opacity, with that opacity as alpha. |
| `ColorNodes.ColorNode.RenderSet` | Fiber2D/ColorNode.swift:50 | The optional render component as a set: it holds the component exactly when one is present, and never more than one. |
| `ColorNodes.ColorNode.constructor` | Fiber2D/ColorNode.swift:24-30 | After `init`, the colour and content size equal the arguments, and the node has no components or subscribers. The render component is a fresh, unowned quad of that size whose vertices carry the raw colour. |
| `ColorNodes.ColorNode.UpdateColor` | Fiber2D/ColorNode.swift:49-51 | With a render component, every vertex takes the premultiplied displayed colour and the positions are kept. Without one, nothing changes. |
| `ColorNodes.ColorNode.SetColor` | Fiber2D/ColorNode.swift:32-36 | A write to `color` stores it, then recolours the quad from the new state. |
| `ColorNodes.ColorNode.SetOpacity` | Fiber2D/ColorNode.swift:38-42 | A write to `opacity` stores it, then recolours the quad from the new state. |
| `ColorNodes.ColorNode.UpdateDisplayedOpacity` | Fiber2D/ColorNode.swift:44-47 | The base propagation runs first, then the quad is recoloured with the new displayed opacity. |

## Left out

- `Node.swift` is not part of this model. The model's `Node` has only the state these two files use.
  - Its initial colour (white), opacity (1) and content size (zero) are choices. `ColorNode.init` overwrites colour and size anyway.
  - Its `renderComponent` property is a plain field of `ColorNode` here. Whatever its setter does beyond storing the component (such as attaching it) is not modelled, so a ColorNode's quad is live only once passed to `Add`.
- The base `Component` class is not part of this model.
  - Its default tag is a constructor parameter here.
- `ColorNode.init`'s default arguments (`color: .clear`, `size: .zero`) are not modelled: Dafny constructors have no default arguments, so callers pass both values. The base component's tag is a third parameter.
  - Its hook bodies are modelled as log entries. Per the comment at `Fiber2D/ColorNode.swift:84`, the base `onRemove` also clears `owner`.
  - `add` calls `component.onAdd()` without an argument while the quad overrides `onAdd(to:)`; the model treats this as one hook that receives the node just set as owner.
- Components.Node.Add: additionally requires `component.Valid()` (a quad has four vertices). Every component built by the constructors keeps this.
- The fatal error on adding an owned component is a precondition, not a modelled abort.
- Components.Node.SetContentSize: does not fix the order in which subscribers are called. The event object's internals are not shown. Each handler writes only its own buffer, so the final state does not depend on the order.
- The colour maths (`displayedColor`, `premultiplyingAlpha`) lives in code not shown. It is given chosen definitions: the displayed colour is the node's RGB with the displayed opacity as alpha, and premultiplying scales RGB by alpha.
- The base `updateDisplayedOpacity` is modelled as storing the parent's value. Its cascade to child nodes is not modelled.
- Floating point: coordinates, colours and opacities are `real`. Rounding, NaN and clamping are not modelled.
- `Material(technique:)`, the renderer, GPU submission and the internals of `Geometry`/`QuadRenderer` are not modelled. The buffer's `positions` and `color` setters are modelled by their effect on the vertex list.
- `removeObject` is specified as taking out the first occurrence of the instance. Under the registry invariant the list holds each instance at most once.
- The commented-out `scheduleUpdate`/`unscheduleUpdate` calls are inactive code and are not modelled.
- Swift class inheritance (`ColorNode: Node`, `BackgroundColorRenderComponent: QuadRenderer`) is modelled by composition and a kind field.

## Findings

| source | as written | input that shows it | evidently intended | confidence | as-written member | corrected member |
|---|---|---|---|---|---|---|
| Fiber2D/Node+Component.swift:63 | `return oldCount < components.count`, evaluated after filtering | a node holding one component tagged 1; `removeComponent(by: 1)` drops it and returns false | `components.count < oldCount`: true exactly when something was removed, as the doc comment says | high; not executed | `Components.RemoveReportAsWrittenMissesRemoval` | `Components.RemoveReportIntendedExact` |
| Fiber2D/Node+Component.swift:72-74 | `remove(component:)` only calls `removeObject`: no `onRemove`, `owner` not cleared | add quad q to node n, then `remove(component: q)`. q leaves the list but stays owned by n and subscribed to n's size event. Any later `add(component: q)` hits the fatal owner check | the same detach sequence as removal by tag: `onRemove` while owned, then `owner = nil` | medium; not executed | `Components.Node.Remove` | `Components.Node.RemoveAndDetach` |
