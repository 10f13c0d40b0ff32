/**
 * The `ContextMenu` component: construction (target resolution and row
 * building), `init` (listener wiring and stylesheet injection), the gesture
 * handler that opens a menu and `closeMenu`. The document is reduced to its
 * head entries, the menu containers attached to its body and the listeners
 * registered on it; handlers are opaque data.
 */
module Widget {
  import opened Wrappers
  import opened Dom
  import opened Items
  import opened Positioning
  import opened Targets
  import opened Styles

  datatype Appearance = Light | Dark

  /** The constructor's options; absent members are `None`. */
  datatype Options = Options(target: Target, menuItems: Option<seq<Entry>>, appearance: Option<Appearance>)

  /** Messages written to the console during construction. */
  datatype Diagnostic = TargetProblem(problem: TargetDiagnostic) | MenuEmpty

  datatype EventSource = OnDocument | OnWindow | OnElement(element: Element)

  /** A JavaScript function object, known only by its identity. */
  class Closure {
    constructor ()
    {
    }
  }

  /** Which of the widget's handlers a listener runs. */
  datatype Action = CloseAction | OpenAction

  /** A registration: where, for which event, which function object, and what it does. */
  datatype Listener = Listener(source: EventSource, event: string, handler: Closure, action: Action)

  /**
   * `addEventListener`: a registration identical to one already present
   * (same target, event and function object) is ignored.
   */
  function AddListener(ls: seq<Listener>, l: Listener): (r: seq<Listener>)
    ensures ls <= r && l in r
    ensures multiset(r) == multiset(ls) + (if l in ls then multiset{} else multiset{l})
    ensures |r| == if l in ls then |ls| else |ls| + 1
  {
    if l in ls then ls else ls + [l]
  }

  /** The document `click` and window `blur` registrations of the bound `closeMenu`. */
  function CloseWired(ls: seq<Listener>, closeMenu: Closure): seq<Listener>
  {
    AddListener(AddListener(ls, Listener(OnDocument, "click", closeMenu, CloseAction)),
                Listener(OnWindow, "blur", closeMenu, CloseAction))
  }

  /**
   * Once the close handler has been wired, wiring it again (a second `init`)
   * adds nothing, whatever was registered in between.
   */
  lemma CloseWiredAgain(earlier: seq<Listener>, ls: seq<Listener>, closeMenu: Closure)
    requires CloseWired(earlier, closeMenu) <= ls
    ensures CloseWired(ls, closeMenu) == ls
  {
    var click := Listener(OnDocument, "click", closeMenu, CloseAction);
    var blur := Listener(OnWindow, "blur", closeMenu, CloseAction);
    var once := CloseWired(earlier, closeMenu);
    assert click in once && blur in once;
    assert forall x :: x in once ==> x in ls;
  }

  /** A close handler not yet registered is registered twice, click then blur. */
  lemma CloseWiredFirstTime(ls: seq<Listener>, closeMenu: Closure)
    requires forall l :: l in ls ==> l.handler != closeMenu
    ensures CloseWired(ls, closeMenu) ==
      ls + [Listener(OnDocument, "click", closeMenu, CloseAction), Listener(OnWindow, "blur", closeMenu, CloseAction)]
  {
    var click := Listener(OnDocument, "click", closeMenu, CloseAction);
    var blur := Listener(OnWindow, "blur", closeMenu, CloseAction);
    assert click !in ls;
    assert blur !in ls + [click];
  }

  /** `ls` holds one `contextmenu` open listener per target, in target order. */
  predicate GestureWired(ls: seq<Listener>, targets: seq<Element>)
  {
    && |ls| == |targets|
    && forall i :: 0 <= i < |ls| ==>
         ls[i].source == OnElement(targets[i]) && ls[i].event == "contextmenu" && ls[i].action == OpenAction
  }

  /** The `div.contextMenu` container rendered for one opening. */
  class MenuContainer {
    const appearance: Appearance
    var children: seq<Row>
    /** The `--width`, `--height`, `--top`, `--left` style variables, once set. */
    var geometry: Option<Geometry>

    constructor (appearance: Appearance)
      ensures this.appearance == appearance && children == [] && geometry == None
    {
      this.appearance := appearance;
      children := [];
      geometry := None;
    }

    method AppendChild(row: Row)
      modifies this`children
      ensures children == old(children) + [row]
    {
      children := children + [row];
    }
  }

  /** The page: head entries, menu containers in the body, registered listeners. */
  class Document {
    var head: seq<HeadEntry>
    var body: seq<MenuContainer>
    var listeners: seq<Listener>
    /**
     * `querySelectorAll`: the elements matching a selector, in document
     * order, or `None` when it throws a `SyntaxError` for an invalid selector.
     */
    const querySelectorAll: string -> Option<seq<Element>>

    constructor (head: seq<HeadEntry>, querySelectorAll: string -> Option<seq<Element>>)
      ensures this.head == head && body == [] && listeners == []
      ensures this.querySelectorAll == querySelectorAll
    {
      this.head := head;
      body := [];
      listeners := [];
      this.querySelectorAll := querySelectorAll;
    }
  }

  /** The `contextmenu` mouse event handed to the gesture handler. */
  class Gesture {
    const clientX: int
    const clientY: int
    var defaultPrevented: bool

    constructor (clientX: int, clientY: int)
      ensures this.clientX == clientX && this.clientY == clientY && !defaultPrevented
    {
      this.clientX := clientX;
      this.clientY := clientY;
      defaultPrevented := false;
    }
  }

  class ContextMenu {
    const doc: Document
    const target: Target
    const menuItems: Option<seq<Entry>>
    const appearance: Appearance
    const targetNodes: seq<Element>
    const menuItemsNode: seq<Row>
    const diagnostics: seq<Diagnostic>
    /** `this.closeMenu.bind(this)`: the one function object registered for closing. */
    const boundCloseMenu: Closure
    var menuNode: MenuContainer?
    var isOpened: bool
    /** Every container this widget has rendered. */
    ghost var rendered: set<MenuContainer>

    /**
     * The open flag and the stored container agree, and of all containers
     * this widget has rendered exactly the stored one is attached, once.
     */
    ghost predicate Valid()
      reads this, doc`body
    {
      && (isOpened <==> menuNode != null)
      && (menuNode != null ==> menuNode in rendered && multiset(doc.body)[menuNode] == 1)
      && (forall c :: c in rendered ==> (c in doc.body <==> c == menuNode))
    }

    constructor (options: Options, doc: Document)
      requires GetTargetNodes(options.target, doc.querySelectorAll).Resolved?
      ensures fresh(boundCloseMenu)
      ensures this.doc == doc && target == options.target && menuItems == options.menuItems
      ensures appearance == options.appearance.GetOr(Light)
      ensures targetNodes == GetTargetNodes(options.target, doc.querySelectorAll).nodes
      ensures menuItemsNode == if options.menuItems.Some? then Flatten(options.menuItems.value) else []
      ensures diagnostics ==
        (match GetTargetNodes(options.target, doc.querySelectorAll).diagnostic
         case Some(p) => [TargetProblem(p)]
         case None => []) +
        (if options.menuItems.None? then [MenuEmpty] else [])
      ensures !isOpened && menuNode == null && rendered == {}
      ensures Valid()
    {
      this.doc := doc;
      target := options.target;
      menuItems := options.menuItems;
      appearance := options.appearance.GetOr(Light);
      var resolution := GetTargetNodes(options.target, doc.querySelectorAll);
      targetNodes := resolution.nodes;
      var rows, missing := CreateMenuItemNodes(options.menuItems);
      menuItemsNode := rows;
      diagnostics :=
        (match resolution.diagnostic
         case Some(p) => [TargetProblem(p)]
         case None => []) +
        (if missing then [MenuEmpty] else []);
      isOpened := false;
      menuNode := null;
      boundCloseMenu := new Closure();
      rendered := {};
    }

    /** `appendStyles`: add the stylesheet unless an element carries the fixed id. */
    method AppendStyles()
      modifies doc`head
      ensures doc.head == InjectStyles(old(doc.head))
    {
      if !HasStyleId(doc.head) {
        doc.head := doc.head + [MenuStyleEntry];
      }
    }

    /** `renderMenu`: a fresh container of the given appearance holding the prebuilt rows in order. */
    method RenderMenu() returns (c: MenuContainer)
      ensures fresh(c)
      ensures c.appearance == appearance && c.children == menuItemsNode && c.geometry == None
    {
      c := new MenuContainer(appearance);
      for i := 0 to |menuItemsNode|
        invariant c.children == menuItemsNode[..i] && c.geometry == None
      {
        c.AppendChild(menuItemsNode[i]);
      }
    }

    /** `closeMenu`: detach and forget the open container; nothing at all when closed. */
    method CloseMenu()
      requires Valid()
      modifies this`isOpened, this`menuNode, doc`body
      ensures Valid() && !isOpened && menuNode == null
      ensures !old(isOpened) ==> doc.body == old(doc.body)
      ensures old(isOpened) ==> old(menuNode) != null && doc.body == Detach<MenuContainer>(old(doc.body), old(menuNode))
    {
      if isOpened {
        isOpened := false;
        if menuNode != null {
          var m: MenuContainer := menuNode;
          forall c | c in rendered
            ensures c in Detach(doc.body, m) <==> c in doc.body && c != m
          {
            DetachMembership(doc.body, m, c);
          }
          doc.body := Detach(doc.body, m);
        }
        menuNode := null;
      }
    }

    /**
     * The `contextmenu` handler: suppress the native menu, close any open
     * menu, attach a freshly rendered one and place it by the clamping rule.
     */
    method OnContextMenu(e: Gesture, scrollWidth: int, scrollHeight: int, innerWidth: int, innerHeight: int)
      requires Valid()
      modifies this`isOpened, this`menuNode, this`rendered, doc`body, e`defaultPrevented
      ensures Valid() && isOpened && menuNode != null && fresh(menuNode)
      ensures e.defaultPrevented
      ensures menuNode.appearance == appearance && menuNode.children == menuItemsNode
      ensures menuNode.geometry == Some(Place(e.clientX, e.clientY, scrollWidth, scrollHeight, innerWidth, innerHeight))
      ensures rendered == old(rendered) + {menuNode}
      ensures doc.body == (if old(isOpened) then Detach<MenuContainer>(old(doc.body), old(menuNode)) else old(doc.body)) + [menuNode]
    {
      e.defaultPrevented := true;
      CloseMenu();
      isOpened := true;
      var c := RenderMenu();
      menuNode := c;
      rendered := rendered + {c};
      assert c !in doc.body;
      doc.body := doc.body + [c];
      var positionY := ClampAxis(e.clientY, scrollHeight, innerHeight);
      var positionX := ClampAxis(e.clientX, scrollWidth, innerWidth);
      c.geometry := Some(Geometry(scrollWidth, scrollHeight, positionY, positionX));
    }

    /**
     * `init`: register the bound `closeMenu` for document clicks and window
     * blur (ignored when already registered), a new open handler on each
     * target, then add the styles.
     */
    method Init()
      modifies doc`head, doc`listeners
      ensures doc.head == InjectStyles(old(doc.head))
      ensures CloseWired(old(doc.listeners), boundCloseMenu) <= doc.listeners
      ensures GestureWired(doc.listeners[|CloseWired(old(doc.listeners), boundCloseMenu)|..], targetNodes)
      ensures forall l :: l in doc.listeners[|CloseWired(old(doc.listeners), boundCloseMenu)|..] ==> fresh(l.handler)
      ensures var k := |CloseWired(old(doc.listeners), boundCloseMenu)|;
        forall i, j :: k <= i < j < |doc.listeners| ==> doc.listeners[i].handler != doc.listeners[j].handler
    {
      doc.listeners := AddListener(doc.listeners, Listener(OnDocument, "click", boundCloseMenu, CloseAction));
      doc.listeners := AddListener(doc.listeners, Listener(OnWindow, "blur", boundCloseMenu, CloseAction));
      ghost var wired := doc.listeners;
      for i := 0 to |targetNodes|
        invariant wired <= doc.listeners
        invariant GestureWired(doc.listeners[|wired|..], targetNodes[..i])
        invariant forall l :: l in doc.listeners[|wired|..] ==> fresh(l.handler)
        invariant forall i, j :: |wired| <= i < j < |doc.listeners| ==> doc.listeners[i].handler != doc.listeners[j].handler
        invariant doc.head == old(doc.head)
      {
        var handler := new Closure();
        var l := Listener(OnElement(targetNodes[i]), "contextmenu", handler, OpenAction);
        assert l !in doc.listeners;
        ghost var before := doc.listeners;
        doc.listeners := AddListener(doc.listeners, l);
        assert doc.listeners[|wired|..] == before[|wired|..] + [l];
        assert targetNodes[..i + 1] == targetNodes[..i] + [targetNodes[i]];
      }
      assert targetNodes[..|targetNodes|] == targetNodes;
      AppendStyles();
    }
  }

  /** Of all containers a widget has rendered, at most one is attached at any time. */
  lemma AtMostOneAttached(m: ContextMenu, c: MenuContainer, d: MenuContainer)
    requires m.Valid()
    requires c in m.rendered && d in m.rendered && c in m.doc.body && d in m.doc.body
    ensures c == d && c == m.menuNode && m.isOpened
  {
  }

  /**
   * `createContextMenu`: construct and initialise in one call. A selector
   * that `querySelectorAll` rejects makes construction throw before `init`,
   * leaving the document as it was. Otherwise the new widget's close handler
   * is registered for click and blur, then one open handler per resolved
   * target.
   */
  method CreateContextMenu(options: Options, doc: Document) returns (thrown: bool)
    modifies doc`head, doc`listeners
    ensures thrown <==> GetTargetNodes(options.target, doc.querySelectorAll).SelectorError?
    ensures thrown ==> doc.head == old(doc.head) && doc.listeners == old(doc.listeners)
    ensures !thrown ==> doc.head == InjectStyles(old(doc.head))
    ensures !thrown ==> old(doc.listeners) <= doc.listeners && |doc.listeners| >= |old(doc.listeners)| + 2
    ensures !thrown ==> doc.listeners[|old(doc.listeners)|].source == OnDocument && doc.listeners[|old(doc.listeners)|].event == "click"
    ensures !thrown ==> doc.listeners[|old(doc.listeners)|].action == CloseAction && fresh(doc.listeners[|old(doc.listeners)|].handler)
    ensures !thrown ==> doc.listeners[|old(doc.listeners)| + 1] == doc.listeners[|old(doc.listeners)|].(source := OnWindow, event := "blur")
    ensures !thrown ==> GestureWired(doc.listeners[|old(doc.listeners)| + 2..], GetTargetNodes(options.target, doc.querySelectorAll).nodes)
    ensures !thrown ==> forall l :: l in doc.listeners[|old(doc.listeners)| + 2..] ==> fresh(l.handler)
  {
    if GetTargetNodes(options.target, doc.querySelectorAll).SelectorError? {
      return true;
    }
    thrown := false;
    var menu := new ContextMenu(options, doc);
    CloseWiredFirstTime(doc.listeners, menu.boundCloseMenu);
    menu.Init();
  }
}
