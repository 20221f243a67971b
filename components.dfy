/**
 * The component factories of styled.ts: `createElement`,
 * `createElementObject`, `createElementWithProps`, `recreateElement`,
 * `dynamicCSS` and `css`. Each factory's closure becomes an object whose
 * `Render` (or `Call`) is the closure's body; the call into Preact becomes
 * the `VNode` it would be given.
 */
module Components {
  import opened Wrappers
  import opened Template
  import opened Naming
  import opened StyleSheets
  import SnakeCase

  /** What `createPreactElement(type, { className, ...restProps }, children)` receives. */
  datatype VNode = VNode(elementType: string, className: string)

  /**
   * The class name a rendered element gets. The code writes
   * `{ className: props.className || generated, ...restProps }`; `restProps`
   * still holds the caller's `className`, so whenever the caller passed one
   * the spread overwrites the `||` choice with it.
   */
  function ChooseClassName(callerClass: Option<string>, generated: string): (r: string)
    ensures callerClass.Some? ==> r == callerClass.value
    ensures callerClass.None? ==> r == generated
  {
    // `props.className || generated`
    var chosen := if callerClass.Some? && callerClass.value != "" then callerClass.value else generated;
    // `...restProps` then writes the caller's `className` over it whenever one was passed
    if callerClass.Some? then callerClass.value else chosen
  }

  /** The component `createElement(tag, strings, ...values)` returns. */
  class StaticElement {
    const tag: string
    const className: string
    const fragments: seq<string>
    const args: seq<string>

    constructor (tag: string, className: string, fragments: seq<string>, args: seq<string>)
      ensures this.tag == tag && this.className == className
      ensures this.fragments == fragments && this.args == args
    {
      this.tag := tag;
      this.className := className;
      this.fragments := fragments;
      this.args := args;
    }

    /** One render: build the CSS body, inject it under the component's class, render the tag. */
    method Render(doc: Document, callerClass: Option<string>) returns (node: VNode)
      modifies doc
      ensures doc.sheets == Injected(old(doc.sheets), className, Interleave(fragments, args))
      ensures node == VNode(tag, ChooseClassName(callerClass, className))
    {
      var css := BuildCss(fragments, args);
      doc.InjectStyles(className, css);
      node := VNode(tag, ChooseClassName(callerClass, className));
    }
  }

  /** `createElement`: the class name is drawn once, when the component is made. */
  method CreateElement(tag: string, fragments: seq<string>, args: seq<string>, ids: UniqueUid)
    returns (element: StaticElement)
    modifies ids
    ensures fresh(element)
    ensures ids.uid == old(ids.uid) + 1 && element.className == ClassName(ids.uid)
    ensures element.tag == tag && element.fragments == fragments && element.args == args
  {
    var className := GenerateClassName(ids);
    element := new StaticElement(tag, className, fragments, args);
  }

  /** The component `createElementObject(tag, styleObject)` returns. */
  class ObjectElement {
    const tag: string
    const className: string
    const body: string

    constructor (tag: string, className: string, body: string)
      ensures this.tag == tag && this.className == className && this.body == body
    {
      this.tag := tag;
      this.className := className;
      this.body := body;
    }

    method Render(doc: Document, callerClass: Option<string>) returns (node: VNode)
      modifies doc
      ensures doc.sheets == InjectedObject(old(doc.sheets), className, body)
      ensures node == VNode(tag, ChooseClassName(callerClass, className))
    {
      doc.InjectStylesObject(className, body);
      node := VNode(tag, ChooseClassName(callerClass, className));
    }
  }

  /**
   * `createElementObject`: snake-cases the style object, stringifies it with
   * `stringify` (standing for `JSON.stringify(..., null, 2)`), turns commas
   * into semicolons and drops quotes, then draws a class name.
   */
  method CreateElementObject(tag: string, styleObject: seq<(string, string)>,
                             stringify: map<string, string> -> string, ids: UniqueUid)
    returns (element: ObjectElement)
    modifies ids
    ensures fresh(element)
    ensures ids.uid == old(ids.uid) + 1 && element.className == ClassName(ids.uid)
    ensures element.tag == tag
    ensures element.body == SnakeCase.StyleObjectBody(stringify(SnakeCase.SnakeObject(styleObject)))
  {
    var snake := SnakeCase.ToSnakeCase(styleObject);
    var body := SnakeCase.StyleObjectBody(stringify(snake));
    var className := GenerateClassName(ids);
    element := new ObjectElement(tag, className, body);
  }

  /** The component `createElementWithProps` returns for callback arguments: one class per props value. */
  class PropsElement<P(==)> {
    const tag: string
    const fragments: seq<string>
    const args: seq<P -> string>
    /** `mappedId`: props value to the class generated for it. */
    var mappedId: map<P, string>

    constructor (tag: string, fragments: seq<string>, args: seq<P -> string>)
      ensures this.tag == tag && this.fragments == fragments && this.args == args
      ensures mappedId == map[]
    {
      this.tag := tag;
      this.fragments := fragments;
      this.args := args;
      mappedId := map[];
    }

    /** A cached class is one that is stored and truthy (non-empty). */
    predicate Cached(props: P)
      reads this
    {
      props in mappedId && mappedId[props] != ""
    }

    /**
     * One render. On a cache hit nothing is generated or injected; on a miss
     * a class is generated, injected with the CSS computed from these props,
     * and stored, so the next render with the same props is a hit.
     */
    method Render(doc: Document, ids: UniqueUid, props: P, callerClass: Option<string>)
      returns (node: VNode)
      modifies this, doc, ids
      ensures Cached(props)
      ensures old(Cached(props)) ==>
        && mappedId == old(mappedId)
        && ids.uid == old(ids.uid)
        && doc.sheets == old(doc.sheets)
      ensures !old(Cached(props)) ==>
        && ids.uid == old(ids.uid) + 1
        && mappedId == old(mappedId)[props := ClassName(ids.uid)]
        && doc.sheets == Injected(old(doc.sheets), ClassName(ids.uid),
                                  Interleave(fragments, Evaluate(args, props)))
      ensures node == VNode(tag, ChooseClassName(callerClass, mappedId[props]))
    {
      var css := BuildCss(fragments, Evaluate(args, props));
      var className := if props in mappedId then mappedId[props] else "";
      if className == "" {
        className := GenerateClassName(ids);
        doc.InjectStyles(className, css);
        mappedId := mappedId[props := className];
      }
      node := VNode(tag, ChooseClassName(callerClass, className));
    }
  }

  /** What `createElementWithProps` returns: a plain `createElement` component or a props-keyed one. */
  datatype Created<P(==)> = Plain(plain: StaticElement) | Keyed(keyed: PropsElement<P>)

  /**
   * `createElementWithProps`: value arguments go to `createElement`,
   * callback arguments to a component that caches a class per props value.
   * The declared type admits only all-value or all-callback lists.
   */
  method CreateElementWithProps<P(==)>(tag: string, fragments: seq<string>, args: seq<Arg<P>>,
                                       ids: UniqueUid)
    returns (created: Created<P>)
    requires AllValues(args) || AllCallbacks(args)
    modifies ids
    ensures created.Plain? <==> AllValues(args)
    ensures created.Plain? ==>
      && fresh(created.plain)
      && ids.uid == old(ids.uid) + 1
      && created.plain.className == ClassName(ids.uid)
      && created.plain.tag == tag && created.plain.fragments == fragments
      && created.plain.args == Values(args)
    ensures created.Keyed? ==>
      && fresh(created.keyed)
      && ids.uid == old(ids.uid)
      && created.keyed.mappedId == map[]
      && created.keyed.tag == tag && created.keyed.fragments == fragments
      && created.keyed.args == Callbacks(args)
  {
    if IsSupportElementArray(args) {
      var element := CreateElement(tag, fragments, Values(args), ids);
      created := Plain(element);
    } else {
      var element := new PropsElement(tag, fragments, Callbacks(args));
      created := Keyed(element);
    }
  }

  /** A functional component handed to `styled(...)`, with its optional suggested `className` ("" when absent). */
  datatype Component = Component(name: string, className: string)

  /** The component `recreateElement(component)` returns for one template. */
  class RecreatedElement {
    const component: Component
    const className: string
    const css: string

    constructor (component: Component, className: string, css: string)
      ensures this.component == component && this.className == className && this.css == css
    {
      this.component := component;
      this.className := className;
      this.css := css;
    }

    method Render(doc: Document, callerClass: Option<string>) returns (node: VNode)
      modifies doc
      ensures doc.sheets == Injected(old(doc.sheets), className, css)
      ensures node == VNode(component.name, ChooseClassName(callerClass, className))
    {
      doc.InjectStyles(className, css);
      node := VNode(component.name, ChooseClassName(callerClass, className));
    }
  }

  /**
   * `recreateElement(component)(strings, ...values)`: the CSS body is built
   * once, and the generated class is put after the component's own class
   * name when it has one.
   */
  method RecreateElement(component: Component, fragments: seq<string>, args: seq<string>,
                         ids: UniqueUid)
    returns (element: RecreatedElement)
    modifies ids
    ensures fresh(element)
    ensures ids.uid == old(ids.uid) + 1
    ensures element.component == component
    ensures element.css == Interleave(fragments, args)
    ensures component.className == "" ==> element.className == ClassName(ids.uid)
    ensures component.className != "" ==>
      element.className == component.className + " " + ClassName(ids.uid)
  {
    var css := BuildCss(fragments, args);
    var className := GenerateClassName(ids);
    if component.className != "" {
      className := component.className + " " + className;
    }
    element := new RecreatedElement(component, className, css);
  }

  /** The function `dynamicCSS(strings, ...callbacks)` returns, with its `className` property ("" while undefined). */
  class DynamicCss<P> {
    const fragments: seq<string>
    const args: seq<P -> string>
    var className: string

    constructor (fragments: seq<string>, args: seq<P -> string>)
      ensures this.fragments == fragments && this.args == args && className == ""
    {
      this.fragments := fragments;
      this.args := args;
      className := "";
    }

    /**
     * One call: the first generates, stores and injects a class; every later
     * call returns the stored class and only rewrites its rule.
     */
    method Call(doc: Document, ids: UniqueUid, props: P) returns (name: string)
      modifies this, doc, ids
      ensures className == name
      ensures old(className) != "" ==>
        && name == old(className)
        && ids.uid == old(ids.uid)
        && doc.sheets == Updated(old(doc.sheets), name, Interleave(fragments, Evaluate(args, props)))
      ensures old(className) == "" ==>
        && ids.uid == old(ids.uid) + 1
        && name == ClassName(ids.uid)
        && doc.sheets == Injected(old(doc.sheets), name, Interleave(fragments, Evaluate(args, props)))
    {
      var css := BuildCss(fragments, Evaluate(args, props));
      if className != "" {
        name := className;
        doc.UpdateStylesCss(name, css);
      } else {
        name := GenerateClassName(ids);
        className := name;
        doc.InjectStyles(name, css);
      }
    }
  }

  /** `css(strings, ...values)`: a fresh class holding the template's CSS; returns its name. */
  method Css(doc: Document, ids: UniqueUid, fragments: seq<string>, args: seq<string>)
    returns (name: string)
    modifies doc, ids
    ensures ids.uid == old(ids.uid) + 1 && name == ClassName(ids.uid)
    ensures doc.sheets == Injected(old(doc.sheets), name, Interleave(fragments, args))
  {
    name := GenerateClassName(ids);
    var css := BuildCss(fragments, args);
    doc.InjectStyles(name, css);
  }
}
