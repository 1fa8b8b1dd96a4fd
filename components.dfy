/** The per-node component registry, the node's content-size notification channel, and the
    lifecycle hooks of the two component kinds (the plain base component and the solid-colour
    quad component). Node and Component refer to each other, so they share this module. */
module Components {
  import opened Geometry

  datatype Option<T> = None | Some(value: T)

  /** The concrete component variants: the base component, whose hooks only record that they
      ran, and the quad that draws a node's background colour. */
  datatype Kind = Plain | BackgroundColor

  /** One call of a lifecycle hook, with the owner the component saw when the hook ran. */
  datatype Hook = Attached(component: Component, owner: Node) | Detached(component: Component, owner: Node)

  // ----- the registry as values: pure functions over a component list -----

  /** No two components of `s` share a tag. */
  predicate TagsUnique(s: seq<Component>)
  {
    forall i, j :: 0 <= i < j < |s| ==> s[i].tag != s[j].tag
  }

  /** The position of the first component of `s` tagged `tag`, or None when no component is. */
  function FirstIndexWithTag(s: seq<Component>, tag: int): (r: Option<nat>)
    ensures r.None? <==> forall i :: 0 <= i < |s| ==> s[i].tag != tag
    ensures r.Some? ==> r.value < |s| && s[r.value].tag == tag &&
                        forall j :: 0 <= j < r.value ==> s[j].tag != tag
  {
    if s == [] then None
    else if s[0].tag == tag then Some(0)
    else match FirstIndexWithTag(s[1..], tag)
      case None => None
      case Some(k) => Some(k + 1)
  }

  /** The first component of `s` tagged `tag`, in list order. */
  function FirstWithTag(s: seq<Component>, tag: int): (r: Option<Component>)
  {
    match FirstIndexWithTag(s, tag)
    case None => None
    case Some(k) => Some(s[k])
  }

  /** The components of `s` not tagged `tag`, in their order in `s`. */
  function Without(s: seq<Component>, tag: int): seq<Component>
  {
    if s == [] then []
    else (if s[0].tag == tag then [] else [s[0]]) + Without(s[1..], tag)
  }

  /** The components of `s` tagged `tag`, in their order in `s`. */
  function Matching(s: seq<Component>, tag: int): seq<Component>
  {
    if s == [] then []
    else (if s[0].tag == tag then [s[0]] else []) + Matching(s[1..], tag)
  }

  /** The `onRemove` calls made, in order, when every component of `s` is detached from `owner`. */
  function DetachLog(s: seq<Component>, owner: Node): (log: seq<Hook>)
    ensures |log| == |s|
    ensures forall i :: 0 <= i < |s| ==> log[i] == Detached(s[i], owner)
  {
    if s == [] then [] else [Detached(s[0], owner)] + DetachLog(s[1..], owner)
  }

  /** The quads among `s`: the components that subscribe to size changes while attached. */
  function Quads(s: seq<Component>): set<Component>
  {
    set c | c in s && c.kind == BackgroundColor
  }

  /** The list with the element at position `k` taken out. */
  function RemoveAt(s: seq<Component>, k: nat): (r: seq<Component>)
    requires k < |s|
    ensures |r| == |s| - 1
    ensures forall i :: 0 <= i < k ==> r[i] == s[i]
    ensures forall i :: k <= i < |r| ==> r[i] == s[i + 1]
  {
    s[..k] + s[k + 1..]
  }

  /** The position of the first occurrence of `c` in `s`. */
  function IndexOf(s: seq<Component>, c: Component): (r: Option<nat>)
    ensures r.None? <==> c !in s
    ensures r.Some? ==> r.value < |s| && s[r.value] == c && c !in s[..r.value]
  {
    if s == [] then None
    else if s[0] == c then Some(0)
    else match IndexOf(s[1..], c)
      case None => None
      case Some(k) => (assert s[..k + 1] == [s[0]] + s[1..][..k]; Some(k + 1))
  }

  // ----- properties of the registry functions -----

  /** Filtering a list extended by one component extends the filtered lists by that
      component on the side its tag selects. */
  lemma {:induction false} WithoutMatchingSnoc(s: seq<Component>, c: Component, tag: int)
    ensures Without(s + [c], tag) == Without(s, tag) + (if c.tag == tag then [] else [c])
    ensures Matching(s + [c], tag) == Matching(s, tag) + (if c.tag == tag then [c] else [])
  {
    if s != [] {
      assert (s + [c])[1..] == s[1..] + [c];
      WithoutMatchingSnoc(s[1..], c, tag);
    }
  }

  /** Removal by tag splits a list: its members are exactly those with another tag, the
      dropped ones exactly those with that tag, and together they account for every entry. */
  lemma {:induction false} WithoutMatchingMembers(s: seq<Component>, tag: int)
    ensures forall c :: c in Without(s, tag) ==> c in s && c.tag != tag
    ensures forall c :: c in s && c.tag != tag ==> c in Without(s, tag)
    ensures forall c :: c in Matching(s, tag) ==> c in s && c.tag == tag
    ensures forall c :: c in s && c.tag == tag ==> c in Matching(s, tag)
    ensures |Without(s, tag)| + |Matching(s, tag)| == |s|
  {
    if s != [] {
      WithoutMatchingMembers(s[1..], tag);
      assert forall c :: c in s <==> c == s[0] || c in s[1..];
    }
  }

  /** Removal by tag keeps tags unique. */
  lemma {:induction false} WithoutKeepsTagsUnique(s: seq<Component>, tag: int)
    requires TagsUnique(s)
    ensures TagsUnique(Without(s, tag))
  {
    if s != [] {
      assert TagsUnique(s[1..]) by {
        forall i, j | 0 <= i < j < |s[1..]| ensures s[1..][i].tag != s[1..][j].tag {
          assert s[1..][i] == s[i + 1] && s[1..][j] == s[j + 1];
        }
      }
      WithoutKeepsTagsUnique(s[1..], tag);
      WithoutMatchingMembers(s[1..], tag);
      var rest := Without(s[1..], tag);
      forall k | 0 <= k < |rest| ensures rest[k].tag != s[0].tag {
        assert rest[k] in rest;
        var j :| 0 <= j < |s[1..]| && s[1..][j] == rest[k];
        assert s[j + 1] == rest[k];
      }
    }
  }

  /** Appending a component whose tag no entry carries keeps tags unique, and the appended
      component is then the first (and only) one found under its tag. */
  lemma AppendKeepsTagsUnique(s: seq<Component>, c: Component)
    requires TagsUnique(s) && FirstWithTag(s, c.tag).None?
    ensures TagsUnique(s + [c])
    ensures FirstWithTag(s + [c], c.tag) == Some(c)
  {
    assert forall i :: 0 <= i < |s| ==> (s + [c])[i] == s[i];
    assert forall i :: 0 <= i < |s| ==> (s + [c])[i].tag != c.tag;
    assert (s + [c])[|s|] == c;
  }

  /** Removing a tag that no component carries leaves the list as it was. */
  lemma {:induction false} WithoutAbsentTag(s: seq<Component>, tag: int)
    requires forall i :: 0 <= i < |s| ==> s[i].tag != tag
    ensures Without(s, tag) == s && Matching(s, tag) == []
  {
    if s != [] {
      WithoutAbsentTag(s[1..], tag);
    }
  }

  /** In a list with unique tags, removing the tag of the component at position `k` drops
      exactly that component and keeps the rest in order. */
  lemma {:induction false} WithoutUniqueTag(s: seq<Component>, tag: int, k: nat)
    requires TagsUnique(s) && k < |s| && s[k].tag == tag
    ensures Without(s, tag) == RemoveAt(s, k)
    ensures Matching(s, tag) == [s[k]]
  {
    if k == 0 {
      WithoutAbsentTag(s[1..], tag);
      assert RemoveAt(s, 0) == s[1..];
    } else {
      assert TagsUnique(s[1..]) by {
        forall i, j | 0 <= i < j < |s[1..]| ensures s[1..][i].tag != s[1..][j].tag {
          assert s[1..][i] == s[i + 1] && s[1..][j] == s[j + 1];
        }
      }
      WithoutUniqueTag(s[1..], tag, k - 1);
      assert s[0].tag != tag;
      assert RemoveAt(s, k) == [s[0]] + RemoveAt(s[1..], k - 1);
    }
  }

  /** What `removeComponent(by:)` reports, as written: that the list grew. */
  function ReportAsWritten(oldCount: nat, newCount: nat): bool
  {
    oldCount < newCount
  }

  /** What the `@return` doc comment of `removeComponent(by:)` promises: that the list shrank. */
  function ReportIntended(oldCount: nat, newCount: nat): bool
  {
    newCount < oldCount
  }

  /** As written, the report of a removal by tag is never true: filtering cannot lengthen the
      list. */
  lemma RemoveReportAsWrittenNeverTrue(s: seq<Component>, tag: int)
    ensures !ReportAsWritten(|s|, |Without(s, tag)|)
  {
  }

  /** The as-written report misses every removal that happens: whenever some component
      carries the tag, one is dropped and the report is still false. */
  lemma RemoveReportAsWrittenMissesRemoval(s: seq<Component>, tag: int, k: nat)
    requires k < |s| && s[k].tag == tag
    ensures |Without(s, tag)| < |s|
    ensures !ReportAsWritten(|s|, |Without(s, tag)|)
  {
    WithoutMatchingMembers(s, tag);
    assert s[k] in Matching(s, tag);
  }

  /** The intended report is true exactly when some component carried the tag. */
  lemma RemoveReportIntendedExact(s: seq<Component>, tag: int)
    ensures ReportIntended(|s|, |Without(s, tag)|) <==> FirstIndexWithTag(s, tag).Some?
  {
    WithoutMatchingMembers(s, tag);
    if FirstIndexWithTag(s, tag).Some? {
      assert s[FirstIndexWithTag(s, tag).value] in Matching(s, tag);
    } else {
      WithoutAbsentTag(s, tag);
    }
  }

  // ----- objects -----

  /** An attachable behaviour: a tag that is its key within one node, a non-owning back
      reference to the node holding it, and, for the quad kind, the vertex buffer it draws. */
  class Component {
    const tag: int
    const kind: Kind
    var owner: Node?
    /** The quad's vertex buffer. The base component draws nothing: for the `Plain` kind this
        field is an unused empty buffer. */
    var geometry: Geometry

    /** The buffer keeps its shape: a quad always has four vertices. */
    ghost predicate Valid()
      reads this`geometry
    {
      kind == BackgroundColor ==> IsQuad(geometry)
    }

    /** The entry this component holds in its owner's size-changed subscribers while
        attached: itself for the quad, nothing for the base component. */
    function Subscription(): (s: set<Component>)
      ensures s == Quads([this])
    {
      if kind == BackgroundColor then {this} else {}
    }

    /** A base component, unattached; its unused buffer is empty. */
    constructor PlainComponent(tag: int)
      ensures this.tag == tag && kind == Plain && owner == null && Valid()
    {
      this.tag := tag;
      kind := Kind.Plain;
      owner := null;
      geometry := Geometry([], []);
    }

    /** A solid-colour quad of `size` in colour `color`, unattached. */
    constructor BackgroundColorRenderComponent(tag: int, size: Size, color: Color)
      ensures this.tag == tag && kind == BackgroundColor && owner == null && Valid()
      ensures geometry == QuadGeometry(size, color)
    {
      this.tag := tag;
      kind := Kind.BackgroundColor;
      owner := null;
      geometry := QuadGeometry(size, color);
    }

    /** The attach hook, run once the owner is set: the base hook records itself; the quad
        then subscribes to its owner's content-size changes. */
    method OnAdd()
      requires owner != null
      modifies owner`hooks, owner`sizeSubscribers
      ensures owner.hooks == old(owner.hooks) + [Attached(this, owner)]
      ensures owner.sizeSubscribers == old(owner.sizeSubscribers) + Subscription()
    {
      owner.hooks := owner.hooks + [Attached(this, owner)];
      if kind == BackgroundColor {
        owner.sizeSubscribers := owner.sizeSubscribers + {this};
      }
    }

    /** The detach hook, run while the owner is still set: the quad first cancels its
        subscription, then the base hook records itself and clears the owner. */
    method OnRemove()
      requires owner != null
      modifies this`owner, owner`hooks, owner`sizeSubscribers
      ensures owner == null
      ensures old(owner).hooks == old(owner.hooks) + [Detached(this, old(owner))]
      ensures old(owner).sizeSubscribers == old(owner.sizeSubscribers) - Subscription()
    {
      var host := owner;
      if kind == BackgroundColor {
        host.sizeSubscribers := host.sizeSubscribers - {this};
      }
      host.hooks := host.hooks + [Detached(this, host)];
      owner := null;
    }

    /** The quad's size handler: every position becomes the matching corner of `size`;
        colours, texture coordinates and indices are left as they were. */
    method Update(size: Size)
      requires Valid() && kind == BackgroundColor
      modifies this`geometry
      ensures Valid()
      ensures geometry == WithPositions(old(geometry), QuadCorners(size))
    {
      geometry := WithPositions(geometry, QuadCorners(size));
    }
  }

  /** The part of a scene node this model needs: its ordered component list, the subscribers
      to its content-size event, its content size and own visual state, and the log of the
      hooks its components have run. */
  class Node {
    var components: seq<Component>
    var sizeSubscribers: set<Component>
    var contentSize: Size
    var color: Color
    var opacity: real
    /** The displayed opacity last propagated from the parent. */
    var parentOpacity: real
    var hooks: seq<Hook>

    /** Tags are unique; every listed component is owned by this node; every listed quad is
        subscribed; every subscriber is a quad this node owns. */
    ghost predicate Valid()
      reads this, (set c | c in components), sizeSubscribers
    {
      TagsUnique(components) &&
      (forall c :: c in components ==> c.owner == this && c.Valid()) &&
      Quads(components) <= sizeSubscribers &&
      SubscribersOwned()
    }

    /** Every subscriber to the size-changed event is a quad this node owns. */
    ghost predicate SubscribersOwned()
      reads this, sizeSubscribers
    {
      forall c :: c in sizeSubscribers ==> c.owner == this && c.kind == BackgroundColor && c.Valid()
    }

    /** The subscribers are exactly the listed quads: a quad is subscribed to this node's
        size event while, and only while, it is in the list. Every registry operation keeps
        this except `Remove`, which leaves the removed quad subscribed. */
    ghost predicate SubscribersListed()
      reads this, (set c | c in components)
    {
      sizeSubscribers == Quads(components)
    }

    constructor ()
      ensures Valid() && SubscribersListed()
      ensures components == [] && sizeSubscribers == {} && hooks == []
      ensures opacity == 1.0 && parentOpacity == 1.0
    {
      components := [];
      sizeSubscribers := {};
      contentSize := Size(0.0, 0.0);
      color := Color(1.0, 1.0, 1.0, 1.0);
      opacity := 1.0;
      parentOpacity := 1.0;
      hooks := [];
    }

    /** The opacity this node is drawn with: its own times what its parent propagated. */
    function DisplayedOpacity(): real
      reads this
    {
      opacity * parentOpacity
    }

    /** `getComponent(by:)`: the first component in list order tagged `tag`. */
    function GetComponent(tag: int): (r: Option<Component>)
      reads this
      ensures r.None? <==> forall c :: c in components ==> c.tag != tag
      ensures r.Some? ==> exists i :: 0 <= i < |components| && components[i] == r.value &&
                            r.value.tag == tag && forall j :: 0 <= j < i ==> components[j].tag != tag
    {
      FirstWithTag(components, tag)
    }

    /** `add(component:)`. The caller must pass an unowned component (the source stops the
        program otherwise). A tag already present makes it a no-op returning false; otherwise
        the component is appended, owned by this node, its attach hook runs, and true is
        returned. */
    method Add(component: Component) returns (added: bool)
      requires Valid() && component.Valid()
      requires component.owner == null
      modifies this`components, this`hooks, this`sizeSubscribers, component`owner
      ensures Valid()
      ensures added <==> old(FirstWithTag(components, component.tag)).None?
      ensures added ==> components == old(components) + [component] && component.owner == this &&
                        hooks == old(hooks) + [Attached(component, this)] &&
                        sizeSubscribers == old(sizeSubscribers) + component.Subscription()
      ensures !added ==> components == old(components) && component.owner == null &&
                         hooks == old(hooks) && sizeSubscribers == old(sizeSubscribers)
      ensures old(SubscribersListed()) ==> SubscribersListed()
    {
      if GetComponent(component.tag).Some? {
        return false;
      }
      components := components + [component];
      component.owner := this;
      component.OnAdd();
      added := true;
    }

    /** The detach step every removal path shares: the component's detach hook runs while
        this node still owns it, then its owner is cleared. */
    method Detach(c: Component)
      requires c.owner == this && SubscribersOwned()
      modifies c`owner, this`hooks, this`sizeSubscribers
      ensures c.owner == null && SubscribersOwned()
      ensures hooks == old(hooks) + [Detached(c, this)]
      ensures sizeSubscribers == old(sizeSubscribers) - c.Subscription()
    {
      c.OnRemove();
      c.owner := null;
    }

    /** `removeComponent(by:)`. Every component tagged `tag` runs its detach hook and loses
        its owner, in list order; the others stay, in order. The result compares the old
        count with the new one the wrong way round, so it is always false. */
    method RemoveComponent(tag: int) returns (removed: bool)
      requires Valid()
      modifies this`components, this`hooks, this`sizeSubscribers, (set c | c in components)`owner
      ensures Valid()
      ensures components == Without(old(components), tag)
      ensures hooks == old(hooks) + DetachLog(Matching(old(components), tag), this)
      ensures sizeSubscribers == old(sizeSubscribers) - Quads(Matching(old(components), tag))
      ensures forall j :: 0 <= j < |old(components)| ==>
                old(components)[j].owner == if old(components)[j].tag == tag then null else this
      ensures removed == ReportAsWritten(|old(components)|, |components|)
      ensures !removed
      ensures old(SubscribersListed()) ==> SubscribersListed()
    {
      var oldCount := |components|;
      var list := components;
      var kept: seq<Component> := [];
      var i := 0;
      while i < |list|
        invariant i <= |list| && components == list
        invariant FilterProgress(list, tag, i, kept, old(hooks), old(sizeSubscribers))
      {
        kept := FilterVisit(list[i], list, tag, i, kept, old(hooks), old(sizeSubscribers));
        i := i + 1;
      }
      assert list[..i] == list;
      components := kept;
      ValidAfterRemoval(list, tag);
      removed := ReportAsWritten(oldCount, |components|);
      RemoveReportAsWrittenNeverTrue(list, tag);
      QuadsWithout(list, tag);
    }

    /** How far the filtering of `list` by `tag` has got after visiting its first `i`
        entries, starting from hook log `hooks0` and subscribers `subscribers0`: `kept`
        holds the visited entries with another tag, the visited entries with that tag have
        run their detach hook (in order) and lost their owner, the others are untouched. */
    ghost predicate FilterProgress(list: seq<Component>, tag: int, i: nat, kept: seq<Component>,
                                   hooks0: seq<Hook>, subscribers0: set<Component>)
      reads this, (set c | c in list), sizeSubscribers
    {
      i <= |list| &&
      TagsUnique(list) &&
      kept == Without(list[..i], tag) &&
      hooks == hooks0 + DetachLog(Matching(list[..i], tag), this) &&
      sizeSubscribers == subscribers0 - Quads(Matching(list[..i], tag)) &&
      (forall j :: 0 <= j < i ==> list[j].owner == if list[j].tag == tag then null else this) &&
      (forall j :: i <= j < |list| ==> list[j].owner == this) &&
      SubscribersOwned() &&
      (forall c :: c in list ==> c.Valid())
    }

    /** One call of the filter closure in `removeComponent(by:)`: the entry at `i` is kept
        when its tag differs; otherwise it is detached and dropped. */
    method FilterVisit(c: Component, list: seq<Component>, tag: int, i: nat, kept: seq<Component>,
                       ghost hooks0: seq<Hook>, ghost subscribers0: set<Component>)
      returns (kept': seq<Component>)
      requires i < |list| && list[i] == c
      requires FilterProgress(list, tag, i, kept, hooks0, subscribers0)
      modifies this`hooks, this`sizeSubscribers, c`owner
      ensures FilterProgress(list, tag, i + 1, kept', hooks0, subscribers0)
    {
      WithoutMatchingSnoc(list[..i], c, tag);
      assert list[..i + 1] == list[..i] + [c];
      if c.tag == tag {
        DetachLogSnoc(Matching(list[..i], tag), c, this);
        Detach(c);
        kept' := kept;
      } else {
        kept' := kept + [c];
      }
    }

    /** The registry invariant is restored once the components tagged `tag` have been
        detached and the list has been filtered. */
    lemma ValidAfterRemoval(list: seq<Component>, tag: int)
      requires TagsUnique(list)
      requires components == Without(list, tag)
      requires forall j :: 0 <= j < |list| ==> list[j].owner == if list[j].tag == tag then null else this
      requires forall c :: c in list ==> c.Valid()
      requires Quads(list) - Quads(Matching(list, tag)) <= sizeSubscribers
      requires SubscribersOwned()
      ensures Valid()
    {
      WithoutKeepsTagsUnique(list, tag);
      WithoutMatchingMembers(list, tag);
      forall c | c in components ensures c.owner == this {
        var j :| 0 <= j < |list| && list[j] == c;
      }
    }

    /** `remove(component:)`, as written: the instance is taken out of the list if present,
        and the result says whether it was. Its detach hook does not run and its owner is
        not cleared, so a removed component stays owned (and, for a quad, subscribed). */
    method Remove(component: Component) returns (removed: bool)
      requires Valid()
      modifies this`components
      ensures Valid()
      ensures removed <==> component in old(components)
      ensures removed ==> components == RemoveAt(old(components), IndexOf(old(components), component).value)
      ensures !removed ==> components == old(components)
      ensures component !in components
      ensures removed ==> component.owner == this
      ensures removed && component.kind == BackgroundColor ==> component in sizeSubscribers
      ensures removed && component.kind == BackgroundColor ==> !SubscribersListed()
    {
      match IndexOf(components, component)
      case None =>
        removed := false;
      case Some(k) =>
        RemoveAtKeepsTagsUnique(components, k);
        components := RemoveAt(components, k);
        removed := true;
    }

    /** Identity removal with the detach sequence that `removeComponent(by:)` and
        `removeAllComponents()` apply to every component they take out: the detach hook runs
        while the owner is set, then the owner is cleared, then the instance leaves the list. */
    method RemoveAndDetach(component: Component) returns (removed: bool)
      requires Valid()
      modifies this`components, this`hooks, this`sizeSubscribers, component`owner
      ensures Valid()
      ensures removed <==> component in old(components)
      ensures removed ==> components == RemoveAt(old(components), IndexOf(old(components), component).value) &&
                          component.owner == null &&
                          hooks == old(hooks) + [Detached(component, this)] &&
                          sizeSubscribers == old(sizeSubscribers) - component.Subscription()
      ensures !removed ==> components == old(components) && component.owner == old(component.owner) &&
                           hooks == old(hooks) && sizeSubscribers == old(sizeSubscribers)
      ensures component !in components
      ensures old(SubscribersListed()) ==> SubscribersListed()
    {
      match IndexOf(components, component)
      case None =>
        removed := false;
      case Some(k) =>
        QuadsRemoveAt(components, k);
        Detach(component);
        RemoveAtKeepsTagsUnique(components, k);
        components := RemoveAt(components, k);
        removed := true;
    }

    /** `removeAllComponents()`: every component, in list order, runs its detach hook and
        loses its owner; then the list is emptied. */
    method RemoveAllComponents()
      requires Valid()
      modifies this`components, this`hooks, this`sizeSubscribers, (set c | c in components)`owner
      ensures Valid()
      ensures components == []
      ensures hooks == old(hooks) + DetachLog(old(components), this)
      ensures sizeSubscribers == old(sizeSubscribers) - Quads(old(components))
      ensures forall c :: c in old(components) ==> c.owner == null
      ensures old(SubscribersListed()) ==> SubscribersListed()
    {
      var list := components;
      var i := 0;
      while i < |list|
        invariant 0 <= i <= |list|
        invariant components == list
        invariant hooks == old(hooks) + DetachLog(list[..i], this)
        invariant sizeSubscribers == old(sizeSubscribers) - Quads(list[..i])
        invariant forall j :: 0 <= j < |list| ==> list[j].owner == if j < i then null else this
      {
        var c := list[i];
        assert list[..i + 1] == list[..i] + [c];
        DetachLogSnoc(list[..i], c, this);
        Detach(c);
        i := i + 1;
      }
      assert list[..i] == list;
      components := [];
    }

    /** Setting the content size fires the size-changed event: every subscriber's handler
        runs with the new size. Nothing else is drawn from or written to. */
    method SetContentSize(size: Size)
      requires Valid()
      modifies this`contentSize, sizeSubscribers`geometry
      ensures Valid()
      ensures contentSize == size
      ensures forall c :: c in sizeSubscribers ==> c.geometry == WithPositions(old(c.geometry), QuadCorners(size))
    {
      contentSize := size;
      var pending := sizeSubscribers;
      while pending != {}
        invariant contentSize == size
        invariant pending <= sizeSubscribers
        invariant forall c :: c in sizeSubscribers ==>
                    c.geometry == if c in pending then old(c.geometry)
                                  else WithPositions(old(c.geometry), QuadCorners(size))
        invariant Valid()
        decreases pending
      {
        var c :| c in pending;
        c.Update(size);
        pending := pending - {c};
      }
    }

    /** The base hook for a parent's displayed opacity reaching this node: the propagated
        value is stored, and `DisplayedOpacity()` follows it. */
    method UpdateDisplayedOpacity(propagated: real)
      modifies this`parentOpacity
      ensures parentOpacity == propagated
    {
      parentOpacity := propagated;
    }
  }

  /** The quads kept by a filter by tag are the quads of the list less the dropped ones. */
  lemma QuadsWithout(s: seq<Component>, tag: int)
    ensures Quads(Without(s, tag)) == Quads(s) - Quads(Matching(s, tag))
  {
    WithoutMatchingMembers(s, tag);
  }

  /** With unique tags each instance is listed once, so taking out the entry at `k` takes
      exactly its quad, if it is one, out of the list's quads. */
  lemma QuadsRemoveAt(s: seq<Component>, k: nat)
    requires TagsUnique(s) && k < |s|
    ensures Quads(RemoveAt(s, k)) == Quads(s) - Quads([s[k]])
  {
    forall c | c in RemoveAt(s, k) ensures c != s[k] {
      var i :| 0 <= i < |RemoveAt(s, k)| && RemoveAt(s, k)[i] == c;
      if i < k { assert s[i] == c; } else { assert s[i + 1] == c; }
    }
    forall c | c in s && c != s[k] ensures c in RemoveAt(s, k) {
      var i :| 0 <= i < |s| && s[i] == c;
      if i < k { assert RemoveAt(s, k)[i] == c; } else { assert RemoveAt(s, k)[i - 1] == c; }
    }
  }

  /** Taking one entry out of a list keeps its tags unique. */
  lemma RemoveAtKeepsTagsUnique(s: seq<Component>, k: nat)
    requires TagsUnique(s) && k < |s|
    ensures TagsUnique(RemoveAt(s, k))
  {
  }

  /** The detach log of a list extended by one component ends with that component's call. */
  lemma DetachLogSnoc(s: seq<Component>, c: Component, owner: Node)
    ensures DetachLog(s + [c], owner) == DetachLog(s, owner) + [Detached(c, owner)]
  {
  }
}
