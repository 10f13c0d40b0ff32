/**
 * The stylesheet guard (`appendStyles`) over the document head, modelled as
 * a sequence of entries each with an optional `id`. The guard looks for an
 * entry whose id is the library's fixed identifier, but the `<style>` element
 * it creates is never given that id, so the guard never sees its own work.
 */
module Styles {
  import opened Wrappers

  /** The identifier the guard looks up with `getElementById`. */
  const StyleElementId: string := "@flowui/vanilla-context-menu"

  /** What an entry of the head holds; the menu's CSS text itself is not modelled. */
  datatype Content = MenuStylesheet | OtherContent(text: string)

  datatype HeadEntry = HeadEntry(tag: string, id: Option<string>, content: Content)

  /** The element `appendStyles` creates: a `<style>` with the menu CSS and no id. */
  const MenuStyleEntry: HeadEntry := HeadEntry("style", None, MenuStylesheet)

  /** `document.getElementById(StyleElementId)` finds something. */
  predicate HasStyleId(head: seq<HeadEntry>)
  {
    head != [] && (head[|head| - 1].id == Some(StyleElementId) || HasStyleId(head[..|head| - 1]))
  }

  /** Number of menu stylesheets in the head. */
  function StyleSheets(head: seq<HeadEntry>): nat
  {
    if head == [] then 0
    else StyleSheets(head[..|head| - 1]) + (if head[|head| - 1].content == MenuStylesheet then 1 else 0)
  }

  /**
   * The head after one `appendStyles`: one new untagged stylesheet at the end
   * when no entry carries the id, the same head otherwise. Whether the id is
   * present is never changed.
   */
  function InjectStyles(head: seq<HeadEntry>): (r: seq<HeadEntry>)
    ensures head <= r
    ensures HasStyleId(r) <==> HasStyleId(head)
    ensures |r| == |head| + (if HasStyleId(head) then 0 else 1)
    ensures !HasStyleId(head) ==> r[|head|].id.None? && r[|head|].content == MenuStylesheet
  {
    if HasStyleId(head) then head
    else
      head + [MenuStyleEntry]
  }

  /** `appendStyles` run `n` times in a row. */
  function InjectTimes(head: seq<HeadEntry>, n: nat): seq<HeadEntry>
  {
    if n == 0 then head else InjectStyles(InjectTimes(head, n - 1))
  }

  lemma {:induction false} StyleSheetsAppend(head: seq<HeadEntry>, e: HeadEntry)
    ensures StyleSheets(head + [e]) == StyleSheets(head) + (if e.content == MenuStylesheet then 1 else 0)
  {
    assert (head + [e])[..|head|] == head;
  }

  /**
   * Without a tagged entry, every call appends another stylesheet: after `n`
   * calls the head holds `n` more of them, so the injection is not idempotent.
   */
  lemma {:induction false} RepeatedInjection(head: seq<HeadEntry>, n: nat)
    requires !HasStyleId(head)
    ensures !HasStyleId(InjectTimes(head, n))
    ensures |InjectTimes(head, n)| == |head| + n
    ensures StyleSheets(InjectTimes(head, n)) == StyleSheets(head) + n
  {
    if n > 0 {
      RepeatedInjection(head, n - 1);
      var prev := InjectTimes(head, n - 1);
      assert InjectTimes(head, n) == prev + [MenuStyleEntry];
      StyleSheetsAppend(prev, MenuStyleEntry);
    }
  }

  /** With a tagged entry present (put there by someone else), the guard holds and nothing is added. */
  lemma {:induction false} TaggedHeadUnchanged(head: seq<HeadEntry>, n: nat)
    requires HasStyleId(head)
    ensures InjectTimes(head, n) == head
  {
    if n > 0 {
      TaggedHeadUnchanged(head, n - 1);
    }
  }
}
