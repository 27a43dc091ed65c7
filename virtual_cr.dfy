/**
 * The synthetic computed-radiography device: parsing the worklist's view
 * string into one view per image, resolving the image mode, numbering the
 * created instances, and assembling the image-generation prompt.
 */
module VirtualCr {
  import opened Wrappers
  import opened Text

  const DefaultView := "AP"

  /** The separators `_parse_views` tries, in this order. */
  const Separators: seq<string> := [" and ", ", ", "/"]

  /** `[x] * n`: Python repeats a one-element list `n` times, and gives the
      empty list for `n <= 0`. */
  function Repeat(x: string, n: int): (r: seq<string>)
    decreases if n < 0 then 0 else n
    ensures |r| == (if n < 0 then 0 else n) && forall i :: 0 <= i < |r| ==> r[i] == x
  {
    if n <= 0 then [] else Repeat(x, n - 1) + [x]
  }

  /** `s[:n]` with Python's reading of a negative bound. */
  function SliceTo(s: seq<string>, n: int): (r: seq<string>)
    ensures r == s[..if n >= 0 then (if n < |s| then n else |s|) else (if |s| + n > 0 then |s| + n else 0)]
  {
    if n >= 0 then (if n < |s| then s[..n] else s)
    else if |s| + n > 0 then s[..|s| + n] else []
  }

  /** The first separator, in the order tried, that occurs in `s`. */
  function FirstSeparator(s: string, i: nat): (r: Option<string>)
    requires i <= |Separators|
    decreases |Separators| - i
    ensures r.Some? ==> r.value in Separators[i..] && Contains(s, r.value)
    ensures r.None? ==> forall j :: i <= j < |Separators| ==> !Contains(s, Separators[j])
  {
    if i == |Separators| then None
    else if Contains(s, Separators[i]) then Some(Separators[i])
    else FirstSeparator(s, i + 1)
  }

  function StripAll(pieces: seq<string>): (r: seq<string>)
    ensures |r| == |pieces| && forall i :: 0 <= i < |r| ==> r[i] == Strip(pieces[i])
  {
    if pieces == [] then [] else StripAll(pieces[..|pieces| - 1]) + [Strip(pieces[|pieces| - 1])]
  }

  /** The views written in `s`: split at the first separator present, each
      piece stripped, or the whole string stripped when none is. */
  function Pieces(s: string): (r: seq<string>)
    ensures |r| >= 1
  {
    match FirstSeparator(s, 0)
    case None => [Strip(s)]
    case Some(sep) => StripAll(Split(s, sep))
  }

  /** Pad with the last view up to `count`, then cut to `count`. */
  function Fitted(views: seq<string>, count: int): seq<string>
    requires |views| >= 1
  {
    if count > |views| then views + Repeat(views[|views| - 1], count - |views|)
    else SliceTo(views, count)
  }

  /** What `_parse_views` returns. */
  function ParsedViews(s: string, count: int): seq<string> {
    if s == "" then Repeat(DefaultView, count) else Fitted(Pieces(s), count)
  }

  /** `_parse_views`: the separator loop, then the padding loop, then the slice. */
  method ParseViews(viewsStr: string, count: int) returns (views: seq<string>)
    ensures views == ParsedViews(viewsStr, count)
  {
    if viewsStr == "" {
      return Repeat(DefaultView, count);
    }
    var written := SplitViews(viewsStr);
    views := FitViews(written, count);
  }

  /** The separator loop of `_parse_views`, with its fallback to the whole
      stripped string. */
  method SplitViews(viewsStr: string) returns (views: seq<string>)
    ensures views == Pieces(viewsStr)
  {
    views := [];
    var i := 0;
    while i < |Separators|
      invariant 0 <= i <= |Separators|
      invariant views == [] && FirstSeparator(viewsStr, 0) == FirstSeparator(viewsStr, i)
    {
      var sep := Separators[i];
      if Contains(viewsStr, sep) {
        views := StripAll(Split(viewsStr, sep));
        return;
      }
      i := i + 1;
    }
    views := [Strip(viewsStr)];
  }

  /** The padding loop and the final slice of `_parse_views`. */
  method FitViews(written: seq<string>, count: int) returns (views: seq<string>)
    requires |written| >= 1
    ensures views == Fitted(written, count)
  {
    views := written;
    var last := written[|written| - 1];
    while |views| < count
      invariant |written| <= |views| && views == written + Repeat(last, |views| - |written|)
      invariant count > |written| ==> |views| <= count
      invariant count <= |written| ==> views == written
      decreases count - |views|
    {
      assert Repeat(last, |views| + 1 - |written|) == Repeat(last, |views| - |written|) + [last];
      views := views + [views[|views| - 1]];
    }
    if count > |written| {
      assert |views| == count;
    } else {
      assert views == written;
    }
    views := SliceTo(views, count);
  }

  /** For a non-negative count there are exactly `count` views: the written
      ones in order, then copies of the last written one. */
  lemma ViewsFitCount(s: string, count: int)
    requires s != "" && count >= 0
    ensures var r := ParsedViews(s, count); var p := Pieces(s);
      && |r| == count
      && forall i :: 0 <= i < count ==> r[i] == (if i < |p| then p[i] else p[|p| - 1])
  {
  }

  /** An empty view string gives `count` anterior-posterior views. */
  lemma EmptyViewsAreAp(count: int)
    ensures ParsedViews("", count) == Repeat(DefaultView, count)
    ensures count >= 0 ==> |ParsedViews("", count)| == count
  {
  }

  /** Only the first separator present splits, even when a later one occurs
      too. */
  lemma SeparatorPrecedence(s: string, i: nat)
    requires i < |Separators| && Contains(s, Separators[i])
    requires forall j :: 0 <= j < i ==> !Contains(s, Separators[j])
    ensures Pieces(s) == StripAll(Split(s, Separators[i]))
  {
    FirstSeparatorIs(s, 0, i);
  }

  lemma {:induction false} FirstSeparatorIs(s: string, from: nat, i: nat)
    requires from <= i < |Separators| && Contains(s, Separators[i])
    requires forall j :: from <= j < i ==> !Contains(s, Separators[j])
    ensures FirstSeparator(s, from) == Some(Separators[i])
    decreases i - from
  {
    if from < i {
      FirstSeparatorIs(s, from + 1, i);
    }
  }

  /** Every view is stripped of surrounding whitespace. */
  lemma ViewsStripped(s: string)
    ensures forall k :: 0 <= k < |Pieces(s)| ==>
              Pieces(s)[k] == "" || (!IsSpace(Pieces(s)[k][0]) && !IsSpace(Pieces(s)[k][|Pieces(s)[k]| - 1]))
  {
  }

  /** Without any separator the view string is one stripped view. */
  lemma NoSeparatorOneView(s: string)
    requires forall j :: 0 <= j < |Separators| ==> !Contains(s, Separators[j])
    ensures Pieces(s) == [Strip(s)]
  {
    assert FirstSeparator(s, 0).None?;
  }

  // ---------------------------------------------------------------------
  // create_study
  // ---------------------------------------------------------------------

  /** The keys of the worklist entry `create_study` reads, `None` when absent. */
  datatype StudyRequest = StudyRequest(
    typicalViews: Option<string>,
    typicalImageCount: Option<string>,
    studyInstanceUid: Option<string>,
    hasModalityCode: bool)

  datatype CreatedFile = CreatedFile(instanceNumber: nat, view: string)

  datatype StudyResult = StudyResult(
    studyUid: string,
    seriesUid: string,
    numImages: nat,
    files: seq<CreatedFile>,
    imageMode: string)

  /** 'auto' becomes 'ai' when an API key is configured, 'simple' otherwise;
      any other mode is kept. */
  function ResolveMode(mode: string, apiKey: string): (r: string)
    ensures mode != "auto" ==> r == mode
    ensures mode == "auto" ==> (r == "ai" <==> apiKey != "") && (r == "simple" <==> apiKey == "")
  {
    if mode == "auto" then (if apiKey != "" then "ai" else "simple") else mode
  }

  /** `num_images or int(mwl_data.get('typical_image_count', 1))`; `None`
      when the stored count is not an integer (the ValueError propagates). */
  function ImageCount(numImages: Option<int>, typical: Option<string>): (r: Option<int>)
    ensures numImages.Some? && numImages.value != 0 ==> r == numImages
    ensures (numImages.None? || numImages.value == 0) && typical.None? ==> r == Some(1)
    ensures r.None? <==> (numImages.None? || numImages.value == 0) && typical.Some? && ParseInt(typical.value).None?
  {
    if numImages.Some? && numImages.value != 0 then numImages
    else if typical.None? then Some(1)
    else ParseInt(typical.value)
  }

  /** A stored count written as `str(n)` is read back as `n` when no count
      is passed. */
  lemma StoredCountRead(numImages: Option<int>, n: int)
    requires numImages.None? || numImages.value == 0
    ensures ImageCount(numImages, Some(IntToString(n))) == Some(n)
  {
    ParseIntToString(n);
  }

  /** Image generation for instance `n` in 'ai' mode raises: the service
      failed for it, or the entry has no modality code to pass. */
  predicate AiFails(req: StudyRequest, aiFailsAt: set<nat>, n: nat) {
    n in aiFailsAt || !req.hasModalityCode
  }

  /** The image mode once the first `n` images are made: one failed 'ai'
      image switches the rest, and the reported mode, to 'simple'. */
  function ModeAfter(mode: string, req: StudyRequest, aiFailsAt: set<nat>, n: nat): string {
    if n == 0 then mode
    else
      var m := ModeAfter(mode, req, aiFailsAt, n - 1);
      if m == "ai" && AiFails(req, aiFailsAt, n) then "simple" else m
  }

  lemma {:induction false} ModeAfterMeaning(mode: string, req: StudyRequest, aiFailsAt: set<nat>, n: nat)
    ensures ModeAfter(mode, req, aiFailsAt, n) ==
      if mode == "ai" && exists k :: 1 <= k <= n && AiFails(req, aiFailsAt, k) then "simple" else mode
  {
    if n > 0 {
      ModeAfterMeaning(mode, req, aiFailsAt, n - 1);
      if mode == "ai" && AiFails(req, aiFailsAt, n) {
        assert 1 <= n <= n && AiFails(req, aiFailsAt, n);
      }
    }
  }

  /** `create_study` without the pixel data: one file per parsed view,
      numbered from 1 in view order. The API key, the generated UIDs and
      the instances at which AI generation fails are parameters. */
  method CreateStudy(req: StudyRequest, imageMode: string, apiKey: string, numImages: Option<int>,
                     generatedStudyUid: string, seriesUid: string, aiFailsAt: set<nat>)
    returns (r: Result<StudyResult, string>)
    ensures ImageCount(numImages, req.typicalImageCount).None? <==> r.Err?
    ensures r.Ok? ==>
      var views := ParsedViews(req.typicalViews.GetOr(DefaultView), ImageCount(numImages, req.typicalImageCount).value);
      && r.value.numImages == |r.value.files| == |views|
      && (forall i :: 0 <= i < |views| ==> r.value.files[i] == CreatedFile(i + 1, views[i]))
      && r.value.imageMode == ModeAfter(ResolveMode(imageMode, apiKey), req, aiFailsAt, |views|)
      && r.value.studyUid == req.studyInstanceUid.GetOr(generatedStudyUid)
      && r.value.seriesUid == seriesUid
  {
    var mode := ResolveMode(imageMode, apiKey);
    var count := ImageCount(numImages, req.typicalImageCount);
    if count.None? {
      return Err("invalid literal for int()");
    }
    var views := ParseViews(req.typicalViews.GetOr(DefaultView), count.value);
    var studyUid := req.studyInstanceUid.GetOr(generatedStudyUid);
    var created, finalMode := CreateFiles(views, mode, req, aiFailsAt);
    return Ok(StudyResult(studyUid, seriesUid, |created|, created, finalMode));
  }

  /** The loop of `create_study`: one file per view, numbered from 1, with
      the image mode falling back to 'simple' at the first failed AI image. */
  method CreateFiles(views: seq<string>, startMode: string, req: StudyRequest, aiFailsAt: set<nat>)
    returns (created: seq<CreatedFile>, mode: string)
    ensures |created| == |views|
    ensures forall i :: 0 <= i < |views| ==> created[i] == CreatedFile(i + 1, views[i])
    ensures mode == ModeAfter(startMode, req, aiFailsAt, |views|)
  {
    mode := startMode;
    created := [];
    for idx := 1 to |views| + 1
      invariant |created| == idx - 1
      invariant forall i :: 0 <= i < idx - 1 ==> created[i] == CreatedFile(i + 1, views[i])
      invariant mode == ModeAfter(startMode, req, aiFailsAt, idx - 1)
    {
      if mode == "ai" && AiFails(req, aiFailsAt, idx) {
        mode := "simple";
      }
      created := created + [CreatedFile(idx, views[idx - 1])];
    }
  }

  // ---------------------------------------------------------------------
  // _build_ai_prompt
  // ---------------------------------------------------------------------

  /** `body_map.get(body_part, body_part.lower())`. */
  function BodyText(bodyPart: string): (r: string)
    ensures forall i :: 0 <= i < |r| ==> !('A' <= r[i] <= 'Z')
  {
    if bodyPart == "CHEST" then "chest"
    else if bodyPart == "ABD" then "abdomen"
    else if bodyPart == "PELV" then "pelvis"
    else if bodyPart == "EXT_UP" then "arm"
    else if bodyPart == "EXT_LOW" then "leg"
    else if bodyPart == "KNEE" then "knee"
    else if bodyPart == "HAND" then "hand"
    else Lower(bodyPart)
  }

  function PromptOpening(view: string, bodyText: string): string {
    "Photorealistic chest X-ray radiograph image from a hospital radiology department.\nReal clinical "
    + view + " view " + bodyText
    + " X-ray with authentic medical imaging characteristics.\n"
    + "Actual radiographic film appearance showing natural asymmetry, realistic tissue densities,\n"
    + "organic bone structure with normal variations. Heart positioned on left side, lung fields\n"
    + "with natural vascular markings, realistic rib spacing and contours. Authentic grayscale\n"
    + "gradients from dense bone (bright white) through soft tissue to lung air spaces (dark gray).\n"
    + "Natural imperfections in patient positioning, realistic scatter radiation patterns"
  }

  const Unremarkable := ", unremarkable study with no acute findings"

  const PromptClosing :=
    ". Genuine medical radiology imaging quality, not illustration or diagram.\n"
    + "Raw radiograph appearance as acquired from CR detector, suitable for clinical review and\n"
    + "medical training purposes only. Photographic realism required."

  /** A description is shown unless it is empty or reads 'normal' in any case. */
  predicate ShowsFinding(description: string) {
    description != "" && Lower(description) != "normal"
  }

  /** The prompt around a description, for any fixed opening and closing. */
  function Assemble(opening: string, description: string, closing: string): string {
    opening
    + (if ShowsFinding(description) then ", with visible " + description else Unremarkable)
    + closing
  }

  /** `_build_ai_prompt`. */
  function BuildAiPrompt(modality: string, bodyPart: string, view: string, description: string): string {
    Assemble(PromptOpening(view, BodyText(bodyPart)), description, PromptClosing)
  }

  /** 'Normal', 'NORMAL' and the empty description all give the same
      prompt: the unremarkable one. */
  lemma NormalIsUnremarkable(opening: string, description: string, closing: string)
    requires description == "" || Lower(description) == "normal"
    ensures Assemble(opening, description, closing) == opening + Unremarkable + closing
  {
  }

  /** Two different findings give two different prompts: the description
      is carried into the prompt as written. */
  lemma FindingsDistinguished(opening: string, d1: string, d2: string, closing: string)
    requires ShowsFinding(d1) && ShowsFinding(d2) && d1 != d2
    ensures Assemble(opening, d1, closing) != Assemble(opening, d2, closing)
  {
    var head := opening + ", with visible ";
    var p1 := Assemble(opening, d1, closing);
    var p2 := Assemble(opening, d2, closing);
    assert p1 == head + d1 + closing;
    assert p2 == head + d2 + closing;
    // Each description is recovered from its prompt, so equal prompts would give equal descriptions.
    assert d1 == p1[|head|..|p1| - |closing|];
    assert d2 == p2[|head|..|p2| - |closing|];
  }

  /** The modality does not enter the prompt. */
  lemma PromptIgnoresModality(m1: string, m2: string, bodyPart: string, view: string, description: string)
    ensures BuildAiPrompt(m1, bodyPart, view, description) == BuildAiPrompt(m2, bodyPart, view, description)
  {
  }
}
