/** The refiner (`refine` in backends.py): which captured pages are sent to the model, what its answers
    give, and the document they refine (`_materialize_chunks` in pipeline.py, exclusions off). */
module LayoutRefiner {
  import opened Common
  import opened Layout
  import opened LayoutParse
  import opened LayoutStabilize
  import opened LayoutApply
  import opened LayoutContent
  import opened LayoutReapply
  import opened LayoutPipeline

  /** What asking about one page ends in: a JSON object, an HTTP error status, any other failure. */
  datatype Answer = Answered(fields: Response) | HttpStatus | Broken

  /** The limits of the refiner; the page budget depends on the media type. */
  datatype Limits = Limits(pages: nat, blocksPerPage: nat)

  const MAX_PAGE_CAPTURES := 256

  function ByNumber(): (int, int) -> bool { (a: int, b: int) => a < b }

  /** `select_layout_captures`: the lowest pages within the budget. */
  function Selected(captures: seq<int>, limits: Limits): seq<int> {
    var ordered := Sorted(captures, ByNumber());
    if limits.pages < |ordered| then ordered[..limits.pages] else ordered
  }

  /** Pages without blocks are not sent; pages with too many keep their raw structure. */
  function HasWork(raw: seq<Block>, limits: Limits): int -> bool {
    (page: int) => 1 <= |IdsOnPage(raw, page)| <= limits.blocksPerPage
  }

  function Work(raw: seq<Block>, captures: seq<int>, limits: Limits): seq<int> {
    Filter(Selected(captures, limits), HasWork(raw, limits))
  }

  /** A page the server refused with a status falls back to its raw structure. */
  function Replied(answer: int -> Answer): int -> bool {
    (page: int) => !answer(page).HttpStatus?
  }

  /** The pages that get a patch. */
  function Patched(raw: seq<Block>, captures: seq<int>, limits: Limits, answer: int -> Answer): seq<int> {
    Filter(Work(raw, captures, limits), Replied(answer))
  }

  function Fields(a: Answer): Response {
    if a.Answered? then a.fields else map[]
  }

  function FieldsAt(answer: int -> Answer): int -> Response {
    (page: int) => Fields(answer(page))
  }

  function Responses(pages: seq<int>, answer: int -> Answer): seq<Response> {
    Map(pages, FieldsAt(answer))
  }

  /** Every page sent is answered or refused with a status. */
  predicate NoneBroken(pages: seq<int>, answer: int -> Answer) {
    forall page | page in pages :: !answer(page).Broken?
  }

  lemma SelectedDistinct(captures: seq<int>, limits: Limits)
    requires Distinct(captures)
    ensures Distinct(Selected(captures, limits)) && |Selected(captures, limits)| <= |captures|
  {
    MultisetDistinct(captures, Sorted(captures, ByNumber()));
  }

  ghost predicate Increasing(pages: seq<int>) {
    forall i, j | 0 <= i < j < |pages| :: pages[i] < pages[j]
  }

  /** The captured pages with the lowest numbers, as many as the budget allows, in ascending order. */
  lemma SelectedLowest(captures: seq<int>, limits: Limits)
    requires Distinct(captures)
    ensures var selected := Selected(captures, limits);
      && |selected| == (if |captures| <= limits.pages then |captures| else limits.pages)
      && Increasing(selected)
      && (forall page | page in selected :: page in captures)
      && forall page, other | page in selected && other in captures && other !in selected :: page < other
  {
    var ordered := Sorted(captures, ByNumber());
    var selected := Selected(captures, limits);
    MultisetDistinct(captures, ordered);
    SortedAscends(captures, ByNumber());
    assert forall page :: page in captures <==> page in Elements(captures);
    assert forall page :: page in ordered <==> page in Elements(ordered);
    assert Increasing(ordered) by {
      forall i, j | 0 <= i < j < |ordered| ensures ordered[i] < ordered[j] {
        assert !ByNumber()(ordered[j], ordered[i]) && ordered[i] != ordered[j];
      }
    }
    forall page, other | page in selected && other in captures && other !in selected ensures page < other {
      var i :| 0 <= i < |selected| && selected[i] == page;
      var j :| 0 <= j < |ordered| && ordered[j] == other;
      assert forall m | 0 <= m < |selected| :: ordered[m] in selected;
      assert ordered[i] == page && i < j;
    }
  }

  lemma {:induction false} FilterIncreasing(pages: seq<int>, keep: int -> bool)
    requires Increasing(pages)
    ensures Increasing(Filter(pages, keep))
  {
    if pages != [] {
      var rest := pages[1..];
      assert forall i | 0 <= i < |rest| :: rest[i] == pages[i + 1];
      FilterIncreasing(rest, keep);
      var kept := Filter(rest, keep);
      forall j | 0 <= j < |kept| ensures pages[0] < kept[j] {
        var k :| 0 <= k < |rest| && rest[k] == kept[j];
        assert pages[k + 1] == kept[j];
      }
    }
  }

  /** A selected page gets a patch exactly when it has blocks, not too many of them, and the server did
      not refuse it; the patches come in page order. */
  lemma PatchedMeaning(raw: seq<Block>, captures: seq<int>, limits: Limits, answer: int -> Answer)
    requires Distinct(captures)
    ensures Increasing(Patched(raw, captures, limits, answer))
    ensures forall page :: page in Patched(raw, captures, limits, answer) <==>
      && page in Selected(captures, limits) && answer(page) != HttpStatus
      && 1 <= |IdsOnPage(raw, page)| <= limits.blocksPerPage
  {
    SelectedLowest(captures, limits);
    FilterIncreasing(Selected(captures, limits), HasWork(raw, limits));
    FilterIncreasing(Work(raw, captures, limits), Replied(answer));
    forall page ensures page in Patched(raw, captures, limits, answer) <==>
      && page in Selected(captures, limits) && answer(page) != HttpStatus
      && 1 <= |IdsOnPage(raw, page)| <= limits.blocksPerPage
    {
      FilterKeeps(Selected(captures, limits), HasWork(raw, limits), page);
      FilterKeeps(Work(raw, captures, limits), Replied(answer), page);
    }
  }

  lemma PatchedDistinct(raw: seq<Block>, captures: seq<int>, limits: Limits, answer: int -> Answer)
    requires Distinct(captures)
    ensures Distinct(Patched(raw, captures, limits, answer)) && |Patched(raw, captures, limits, answer)| <= |captures|
  {
    SelectedDistinct(captures, limits);
    FilterDistinct(Selected(captures, limits), HasWork(raw, limits));
    FilterDistinct(Work(raw, captures, limits), Replied(answer));
  }

  /** The model is asked about each page of the work list; the first other failure ends the step. */
  method Gather(work: seq<int>, answer: int -> Answer) returns (ok: bool, pages: seq<int>, responses: seq<Response>)
    ensures ok <==> NoneBroken(work, answer)
    ensures ok ==> pages == Filter(work, Replied(answer)) && responses == Responses(pages, answer)
  {
    ok, pages, responses := true, [], [];
    var i := 0;
    while i < |work| && ok
      invariant 0 <= i <= |work|
      invariant ok <==> NoneBroken(work[..i], answer)
      invariant ok ==> pages == Filter(work[..i], Replied(answer)) && responses == Responses(pages, answer)
    {
      var page := work[i];
      assert work[..i + 1] == work[..i] + [page];
      FilterSnoc(work[..i], page, Replied(answer));
      match answer(page) {
        case Answered(fields) =>
          MapConcat(pages, [page], FieldsAt(answer));
          pages := pages + [page];
          responses := responses + [fields];
        case HttpStatus =>
        case Broken => ok := false;
      }
      i := i + 1;
    }
    if ok { assert work[..i] == work; }
  }

  /** The page's answers can all be used. */
  ghost predicate Usable(
    raw: seq<Block>, captures: seq<int>, limits: Limits, answer: int -> Answer, fingerprint: string)
  {
    var pages := Patched(raw, captures, limits, answer);
    && Distinct(captures) && NoneBroken(Work(raw, captures, limits), answer)
    && AllParsed(raw, pages, Responses(pages, answer), fingerprint)
  }

  /** `refine`: one patch for every selected page that has blocks, not too many of them, and an answer. */
  method RefineCaptures(raw: seq<Block>, captures: seq<int>, limits: Limits, answer: int -> Answer, fingerprint: string)
    returns (r: Result<seq<LayoutPatch>>)
    requires DistinctIds(raw)
    ensures r.Ok? <==> Usable(raw, captures, limits, answer, fingerprint)
    ensures r.Ok? ==>
      var pages := Patched(raw, captures, limits, answer);
      AllRefined(raw, pages, Responses(pages, answer), fingerprint, false, r.value)
  {
    DistinctCount(captures);
    if |Elements(captures)| != |captures| {
      r := Err("page captures contain duplicate page numbers");
    } else {
      var work := Work(raw, captures, limits);
      var ok, pages, responses := Gather(work, answer);
      if ok {
        r := RefinePages(raw, pages, responses, fingerprint);
      } else {
        r := Err("a page could not be refined");
      }
    }
  }

  /** From captures to refined blocks: fails exactly when an answer cannot be used or a refined block
      has no room for its metadata; otherwise the verified patches are applied. */
  method RefineDocument(raw: seq<Block>, captures: seq<int>, limits: Limits, answer: int -> Answer, fingerprint: string)
    returns (r: Result<seq<Block>>, ghost patches: seq<LayoutPatch>)
    requires forall b | b in raw :: ValidBlock(b)
    requires RawAccepted(raw) && |captures| <= MAX_PAGE_CAPTURES
    ensures Usable(raw, captures, limits, answer, fingerprint) ==>
      var pages := Patched(raw, captures, limits, answer);
      && AllRefined(raw, pages, Responses(pages, answer), fingerprint, false, patches) && AllLocal(raw, patches)
      && (r.Ok? <==> AllRoom(raw, patches)) && (RoomForThree(raw) ==> r.Ok?)
    ensures r.Ok? ==>
      && Usable(raw, captures, limits, answer, fingerprint) && AllLocal(raw, patches)
      && r.value == Applied(raw, patches) && Conserves(raw, r.value, {})
  {
    patches := [];
    var refined := RefineCaptures(raw, captures, limits, answer, fingerprint);
    if refined.Err? {
      r := Err(refined.error);
    } else {
      var pages := Patched(raw, captures, limits, answer);
      patches := refined.value;
      PatchedDistinct(raw, captures, limits, answer);
      AcceptedResponsesApply(raw, pages, Responses(pages, answer), fingerprint, patches);
      r := ApplyRefined(raw, pages, Responses(pages, answer), fingerprint, refined.value);
    }
  }
}
