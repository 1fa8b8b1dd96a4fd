/** Client walk-throughs of the registry and the colour quad, proved from the contracts alone. */
module Scenarios {
  import opened Geometry
  import opened Components
  import opened ColorNodes

  /** Attach, look up, refuse a duplicate tag, detach by tag, and detach an absent tag. */
  method AttachLookupDetach(tag: int)
  {
    var n := new Node();
    var a := new Component.PlainComponent(tag);
    var added := n.Add(a);
    assert added && a.owner == n;
    assert n.GetComponent(tag) == Some(a);

    var b := new Component.PlainComponent(tag);
    var again := n.Add(b);
    assert !again && b.owner == null && n.components == [a];

    var removed := n.RemoveComponent(tag);
    assert !removed;                          // reported as not removed ...
    assert a.owner == null && n.components == [];  // ... although it was
    assert n.GetComponent(tag) == None;
    assert n.hooks == [Attached(a, n), Detached(a, n)];

    var hooks := n.hooks;
    var none := n.RemoveComponent(tag + 1);
    assert !none && n.components == [] && n.hooks == hooks;
  }

  /** A quad built for 10 x 20 and attached follows the node to 30 x 40; once detached, the
      node's later size changes no longer reach it. */
  method GeometryFollowsSize()
  {
    var n := new Node();
    assert n.SubscribersListed();
    var q := new Component.BackgroundColorRenderComponent(7, Size(10.0, 20.0), Color(1.0, 1.0, 1.0, 1.0));
    var added := n.Add(q);
    assert added && q in n.sizeSubscribers;

    n.SetContentSize(Size(30.0, 40.0));
    assert Positions(q.geometry) ==
           [Vec4(0.0, 0.0, 0.0, 1.0), Vec4(30.0, 0.0, 0.0, 1.0),
            Vec4(30.0, 40.0, 0.0, 1.0), Vec4(0.0, 40.0, 0.0, 1.0)];

    var removed := n.RemoveComponent(7);
    assert q.owner == null && q !in n.sizeSubscribers && n.SubscribersListed();
    var before := q.geometry;
    n.SetContentSize(Size(50.0, 60.0));
    assert q.geometry == before;
  }

  /** Dropping a white ColorNode's opacity to zero turns every vertex transparent black. */
  method OpacityZeroIsTransparent()
  {
    var cn := new ColorNode(Color(1.0, 1.0, 1.0, 1.0), Size(10.0, 20.0), 3);
    cn.SetOpacity(0.0);
    assert UniformColor(cn.renderComponent.geometry, Color(0.0, 0.0, 0.0, 0.0));
    assert Positions(cn.renderComponent.geometry) == QuadCorners(Size(10.0, 20.0));
  }

  /** Removing a component by identity leaves it owned, so it can be added nowhere again;
      removing it with the detach sequence frees it. */
  method IdentityRemoval(tag: int)
  {
    var n := new Node();
    var q := new Component.BackgroundColorRenderComponent(tag, Size(1.0, 1.0), Color(0.0, 0.0, 0.0, 1.0));
    var added := n.Add(q);
    var removed := n.Remove(q);
    assert removed && q !in n.components;
    assert q.owner == n && q in n.sizeSubscribers;   // still owned and still subscribed
    assert !n.SubscribersListed();

    var m := new Node();
    var r := new Component.BackgroundColorRenderComponent(tag, Size(1.0, 1.0), Color(0.0, 0.0, 0.0, 1.0));
    added := m.Add(r);
    var detached := m.RemoveAndDetach(r);
    assert detached && r.owner == null && r !in m.sizeSubscribers;
    assert m.SubscribersListed();
  }
}
