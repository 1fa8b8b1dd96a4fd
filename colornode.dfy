/** The node that draws a rectangle filled with a solid colour. Its colour and opacity
    observers, and the displayed-opacity hook, push one premultiplied colour into every
    vertex of its render component. */
module ColorNodes {
  import opened Geometry
  import opened Components

  /** A ColorNode: the scene node it extends (`node`) and the render component it builds. */
  class ColorNode {
    const node: Node
    var renderComponent: Component?

    /** The node keeps its registry invariant, and the render component, when present, is a
        quad with its four vertices. */
    ghost predicate Valid()
      reads this, node, (set c | c in node.components), node.sizeSubscribers, renderComponent
    {
      node.Valid() &&
      (renderComponent != null ==> renderComponent.kind == BackgroundColor && renderComponent.Valid())
    }

    /** The render component as a set, empty while there is none (a frame for its buffer). */
    function RenderSet(): (s: set<Component>)
      reads this
      ensures renderComponent != null <==> renderComponent in s
      ensures |s| <= 1
    {
      if renderComponent == null then {} else {renderComponent}
    }

    /** The colour the quad's vertices are given: the node's displayed colour with its alpha
        premultiplied. */
    function VertexColor(): (c: Color)
      reads node
      ensures c == Color(node.color.r * node.DisplayedOpacity(), node.color.g * node.DisplayedOpacity(),
                         node.color.b * node.DisplayedOpacity(), node.DisplayedOpacity())
    {
      PremultipliedDisplayedColor(node.color, node.DisplayedOpacity());
      PremultiplyingAlpha(DisplayedColor(node.color, node.DisplayedOpacity()))
    }

    /** `init(color:size:)`: a fresh node gets its colour (the observer fires, but there is no
        render component yet, so no vertex changes) and its content size (no subscriber hears
        it), and then a quad of that size is built with the raw colour, not the premultiplied
        one. The base component's tag is a parameter here. */
    constructor (color: Color, size: Size, componentTag: int)
      ensures Valid() && node.SubscribersListed() && fresh(node)
      ensures node.color == color && node.contentSize == size
      ensures node.components == [] && node.sizeSubscribers == {}
      ensures renderComponent != null && fresh(renderComponent)
      ensures renderComponent.geometry == QuadGeometry(size, color)
      ensures renderComponent.owner == null && renderComponent.tag == componentTag
    {
      node := new Node();
      renderComponent := null;
      new;
      SetColor(color);
      node.SetContentSize(size);
      renderComponent := new Component.BackgroundColorRenderComponent(componentTag, size, color);
    }

    /** `updateColor()`: every vertex of the render component takes the premultiplied
        displayed colour; positions are kept. Without a render component nothing changes. */
    method UpdateColor()
      requires Valid()
      modifies RenderSet()`geometry
      ensures Valid()
      ensures renderComponent != null ==>
                renderComponent.geometry == WithColor(old(renderComponent.geometry), VertexColor())
    {
      if renderComponent != null {
        renderComponent.geometry := WithColor(renderComponent.geometry, VertexColor());
      }
    }

    /** Writing `color`: the new colour is stored and the observer recolours the quad. */
    method SetColor(color: Color)
      requires Valid()
      modifies node`color, RenderSet()`geometry
      ensures Valid()
      ensures node.color == color
      ensures renderComponent != null ==>
                renderComponent.geometry == WithColor(old(renderComponent.geometry), VertexColor())
    {
      node.color := color;
      UpdateColor();
    }

    /** Writing `opacity`: the new opacity is stored and the observer recolours the quad. */
    method SetOpacity(opacity: real)
      requires Valid()
      modifies node`opacity, RenderSet()`geometry
      ensures Valid()
      ensures node.opacity == opacity
      ensures renderComponent != null ==>
                renderComponent.geometry == WithColor(old(renderComponent.geometry), VertexColor())
    {
      node.opacity := opacity;
      UpdateColor();
    }

    /** `updateDisplayedOpacity(_:)`: the base hook stores the parent's displayed opacity,
        then the quad is recoloured. */
    method UpdateDisplayedOpacity(propagated: real)
      requires Valid()
      modifies node`parentOpacity, RenderSet()`geometry
      ensures Valid()
      ensures node.parentOpacity == propagated
      ensures renderComponent != null ==>
                renderComponent.geometry == WithColor(old(renderComponent.geometry), VertexColor())
    {
      node.UpdateDisplayedOpacity(propagated);
      UpdateColor();
    }
  }
}
