/** The floating "download CV" button: it is shown only while none of the
    page's own CV-download links is on screen. An observer callback adds the
    identifiers of links entering the viewport to `visibleIds` and removes
    those leaving it. */
module FloatingDownload {
  import opened Wrappers

  /** One observer entry: the link's `data-cv-observer-id` (absent or empty
      for an element without one) and whether it intersects the viewport. */
  datatype Entry = Entry(id: Option<string>, isIntersecting: bool)

  /** `!elementId`: entries without a usable identifier are skipped. */
  predicate HasId(e: Entry) {
    e.id.Some? && e.id.value != ""
  }

  /** The effect on `visibleIds` of one entry. */
  function ApplyEntry(ids: set<string>, e: Entry): set<string> {
    if !HasId(e) then ids
    else if e.isIntersecting then ids + {e.id.value}
    else ids - {e.id.value}
  }

  /** Some entry with a usable id `x` reports `isIntersecting == b`. */
  predicate Reported(es: seq<Entry>, x: string, b: bool) {
    exists i :: 0 <= i < |es| && HasId(es[i]) && es[i].id.value == x && es[i].isIntersecting == b
  }

  /** The effect of the entries of one callback, applied in order: an id
      becomes visible only through an intersecting entry about it, and stops
      being visible only through a non-intersecting one. */
  function ApplyEntries(ids: set<string>, es: seq<Entry>): (r: set<string>)
    ensures forall x :: x in r && x !in ids ==> Reported(es, x, true)
    ensures forall x :: x in ids && x !in r ==> Reported(es, x, false)
    decreases |es|
  {
    if es == [] then ids else ApplyEntry(ApplyEntries(ids, es[..|es| - 1]), es[|es| - 1])
  }

  /** Whether the last entry that names `id` intersected, if any entry does. */
  function LastReport(es: seq<Entry>, id: string): Option<bool>
    decreases |es|
  {
    if es == [] then None
    else if HasId(es[|es| - 1]) && es[|es| - 1].id.value == id then Some(es[|es| - 1].isIntersecting)
    else LastReport(es[..|es| - 1], id)
  }

  /** A link counts as visible exactly when the last entry about it said it
      intersects; a link no entry mentions keeps its previous status. */
  lemma {:induction false} LastEntryDecides(ids: set<string>, es: seq<Entry>, id: string)
    ensures LastReport(es, id).Some? ==> (id in ApplyEntries(ids, es) <==> LastReport(es, id).value)
    ensures LastReport(es, id).None? ==> (id in ApplyEntries(ids, es) <==> id in ids)
    decreases |es|
  {
    if es != [] {
      LastEntryDecides(ids, es[..|es| - 1], id);
    }
  }

  /** The `visibleIds` set of one run of the effect. */
  class CvLinkWatcher {
    var visibleIds: set<string>

    constructor ()
      ensures visibleIds == {}
    {
      visibleIds := {};
    }

    /** One observer callback; returns the new `showFloatingDownload`. */
    method OnEntries(es: seq<Entry>) returns (showFloating: bool)
      modifies this
      ensures visibleIds == ApplyEntries(old(visibleIds), es)
      ensures showFloating <==> visibleIds == {}
    {
      var i := 0;
      while i < |es|
        invariant 0 <= i <= |es|
        invariant visibleIds == ApplyEntries(old(visibleIds), es[..i])
      {
        assert es[..i + 1][..i] == es[..i];
        var e := es[i];
        if HasId(e) {
          if e.isIntersecting {
            visibleIds := visibleIds + {e.id.value};
          } else {
            visibleIds := visibleIds - {e.id.value};
          }
        }
        i := i + 1;
      }
      assert es[..i] == es;
      showFloating := |visibleIds| == 0;
    }
  }
}
