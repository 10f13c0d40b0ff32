/**
 * Target resolution (`getTargetNodes`): the elements that receive the
 * context-menu listener, computed once when the widget is constructed.
 */
module Targets {
  import opened Wrappers
  import opened Dom

  /** The `target` option: a CSS selector, an element, or `null`. */
  datatype Target = NoTarget | Selector(selector: string) | ElementRef(element: Element)

  /** The two diagnostics written to the console by resolution. */
  datatype TargetDiagnostic = InvalidTarget | TargetNotFound

  /**
   * The outcome of resolution: the nodes with an optional diagnostic, or the
   * `SyntaxError` that `querySelectorAll` throws for a selector it rejects,
   * which nothing catches.
   */
  datatype Resolution =
    | Resolved(nodes: seq<Element>, diagnostic: Option<TargetDiagnostic>)
    | SelectorError

  /** JavaScript truthiness of the option: `null` and the empty string are falsy. */
  predicate Truthy(target: Target)
  {
    match target
    case NoTarget => false
    case Selector(s) => s != ""
    case ElementRef(_) => true
  }

  /**
   * `query` stands for `document.querySelectorAll`: the elements matching a
   * selector, in document order, or `None` when the selector is invalid.
   */
  function GetTargetNodes(target: Target, query: string -> Option<seq<Element>>): (r: Resolution)
    ensures r.SelectorError? <==> target.Selector? && Truthy(target) && query(target.selector).None?
    ensures r.Resolved? ==> (r.nodes == [] <==> r.diagnostic.Some?)
    ensures !Truthy(target) ==> r == Resolved([], Some(InvalidTarget))
    ensures target.ElementRef? ==> r == Resolved([target.element], None)
    ensures target.Selector? && Truthy(target) && query(target.selector).Some? ==>
      r.Resolved? && r.nodes == query(target.selector).value &&
      (r.diagnostic == Some(TargetNotFound) <==> query(target.selector).value == [])
    ensures r.Resolved? ==> forall e :: e in r.nodes ==>
      target == ElementRef(e) || (target.Selector? && query(target.selector).Some? && e in query(target.selector).value)
  {
    if !Truthy(target) then Resolved([], Some(InvalidTarget))
    else if target.ElementRef? then Resolved([target.element], None)
    else
      match query(target.selector)
      case None => SelectorError
      case Some(nodes) =>
        if |nodes| > 0 then Resolved(nodes, None) else Resolved([], Some(TargetNotFound))
  }
}
