/**
 * The driver of the Google tool (google/tool.py): the `KEY_WORDS` setting, the crop box of a
 * value word, `extract_handwritten_responses` and `main`. The rendering of pages, the image
 * crop and encoding and the Vision calls are parameters: `annotations[i]` is what Vision
 * returns for page `i`, `recognise(i, c)` what it returns for crop `c` of page `i`.
 */
module GoogleMain {
  import opened Wrappers
  import opened Seqs
  import opened Text
  import opened GoogleVision
  import opened GoogleExtract

  // ---------------------------------------------------------------- KEY_WORDS

  /** The stripped pieces that are not empty, in order. */
  function KeyWordsFrom(pieces: seq<string>): (ws: seq<string>)
    ensures |ws| <= |pieces|
    ensures forall w :: w in ws ==> w != "" && IsStripped(w) && exists p :: p in pieces && w == Strip(p)
  {
    if pieces == [] then []
    else
      var w := Strip(pieces[0]);
      var rest := KeyWordsFrom(pieces[1..]);
      if w != "" then [w] + rest else rest
  }

  /** No piece that is not blank is dropped. */
  lemma {:induction false} KeyWordsKeepPieces(pieces: seq<string>, p: string)
    requires p in pieces && Strip(p) != ""
    ensures Strip(p) in KeyWordsFrom(pieces)
  {
    if p != pieces[0] {
      KeyWordsKeepPieces(pieces[1..], p);
    }
  }

  /**
   * The key words of the `KEY_WORDS` setting (empty when unset): split on commas, stripped,
   * empty entries dropped. No key word is empty or has surrounding whitespace.
   */
  function ParseKeyWords(env: Option<string>): (ws: seq<string>)
    ensures forall w :: w in ws ==> w != "" && IsStripped(w) && exists p :: p in Split(env.GetOr(""), ',') && w == Strip(p)
  {
    KeyWordsFrom(Split(env.GetOr(""), ','))
  }

  /** Every piece between commas that is not blank gives a key word. */
  lemma ParseKeepsEveryKeyWord(env: Option<string>, p: string)
    requires p in Split(env.GetOr(""), ',') && Strip(p) != ""
    ensures Strip(p) in ParseKeyWords(env)
  {
    KeyWordsKeepPieces(Split(env.GetOr(""), ','), p);
  }

  /** Key words keep the order of their pieces: those of `a` come before those of `b`. */
  lemma {:induction false} KeyWordsFromAppend(a: seq<string>, b: seq<string>)
    ensures KeyWordsFrom(a + b) == KeyWordsFrom(a) + KeyWordsFrom(b)
    decreases |a|
  {
    if a == [] {
      assert a + b == b;
    } else {
      assert (a + b)[0] == a[0];
      assert (a + b)[1..] == a[1..] + b;
      KeyWordsFromAppend(a[1..], b);
    }
  }

  /**
   * The setting is read piece by piece, in comma order: the key words of text with a comma in
   * it are those before the comma followed by those after it, and a piece without a comma
   * gives its stripped text, unless that is empty. The two together fix the key words of
   * every setting.
   */
  lemma ParseKeyWordsInOrder(a: string, b: string)
    ensures ParseKeyWords(Some(a + [','] + b)) == ParseKeyWords(Some(a)) + ParseKeyWords(Some(b))
    ensures ',' !in a ==> ParseKeyWords(Some(a)) == if Strip(a) == "" then [] else [Strip(a)]
  {
    SplitAppend(a, b, ',');
    KeyWordsFromAppend(Split(a, ','), Split(b, ','));
    if ',' !in a {
      assert IndexOf(a, ',') == |a|;
      assert Split(a, ',') == [a];
    }
  }

  /** No key word holds a comma. */
  lemma KeyWordsHaveNoComma(env: Option<string>)
    ensures forall w :: w in ParseKeyWords(env) ==> ',' !in w
  {
    forall w | w in ParseKeyWords(env)
      ensures ',' !in w
    {
      var p :| p in Split(env.GetOr(""), ',') && w == Strip(p);
      StripAddsNothing(p, ',');
    }
  }

  /** An unset setting gives no key words. */
  lemma UnsetKeyWords()
    ensures ParseKeyWords(None) == []
  {
    assert Split("", ',') == [""];
  }

  /** Key words written out comma-separated are read back as they were. */
  lemma KeyWordsRoundTrip(ws: seq<string>)
    requires forall w :: w in ws ==> w != "" && IsStripped(w) && ',' !in w
    ensures ParseKeyWords(Some(Join(ws, ','))) == ws
  {
    if ws == [] {
      assert Split("", ',') == [""];
    } else {
      SplitJoin(ws, ',');
      assert forall i :: 0 <= i < |ws| ==> ws[i] in ws;
      KeyWordsOfStripped(ws);
    }
  }

  /** Pieces that are already key words are kept as they are. */
  lemma {:induction false} KeyWordsOfStripped(ws: seq<string>)
    requires forall i :: 0 <= i < |ws| ==> ws[i] != "" && IsStripped(ws[i])
    ensures KeyWordsFrom(ws) == ws
  {
    if ws != [] {
      var head, tail := ws[0], ws[1..];
      KeyWordsOfStripped(tail);
      StripStripped(head);
      assert KeyWordsFrom(ws) == [head] + KeyWordsFrom(tail);
      assert ws == [head] + tail;
    }
  }

  // ---------------------------------------------------------------- crop box

  datatype Axis = X | Y

  function Coord(v: Vertex, axis: Axis): int
  {
    match axis
    case X => v.x
    case Y => v.y
  }

  /** `min` of the vertices' coordinates on `axis`. */
  function Lowest(vs: seq<Vertex>, axis: Axis): (m: int)
    requires |vs| > 0
    ensures exists i :: 0 <= i < |vs| && Coord(vs[i], axis) == m
    ensures forall i :: 0 <= i < |vs| ==> m <= Coord(vs[i], axis)
  {
    if |vs| == 1 then Coord(vs[0], axis)
    else
      var m := Lowest(vs[1..], axis);
      assert forall i :: 1 <= i < |vs| ==> vs[i] == vs[1..][i - 1];
      if Coord(vs[0], axis) <= m then Coord(vs[0], axis) else m
  }

  /** `max` of the vertices' coordinates on `axis`. */
  function Highest(vs: seq<Vertex>, axis: Axis): (m: int)
    requires |vs| > 0
    ensures exists i :: 0 <= i < |vs| && Coord(vs[i], axis) == m
    ensures forall i :: 0 <= i < |vs| ==> Coord(vs[i], axis) <= m
  {
    if |vs| == 1 then Coord(vs[0], axis)
    else
      var m := Highest(vs[1..], axis);
      assert forall i :: 1 <= i < |vs| ==> vs[i] == vs[1..][i - 1];
      if Coord(vs[0], axis) >= m then Coord(vs[0], axis) else m
  }

  /** The rectangle `(min_x, min_y, max_x, max_y)` cut from the page image. */
  datatype Crop = Crop(left: int, top: int, right: int, bottom: int)

  predicate Inside(v: Vertex, c: Crop)
  {
    c.left <= v.x <= c.right && c.top <= v.y <= c.bottom
  }

  /** The smallest axis-aligned rectangle holding every vertex of the box. */
  function BoxCrop(box: BoundingPoly): (c: Crop)
    requires |box.vertices| > 0
    ensures c.left <= c.right && c.top <= c.bottom
    ensures forall i :: 0 <= i < |box.vertices| ==> Inside(box.vertices[i], c)
    ensures exists i :: 0 <= i < |box.vertices| && box.vertices[i].x == c.left
    ensures exists i :: 0 <= i < |box.vertices| && box.vertices[i].x == c.right
    ensures exists i :: 0 <= i < |box.vertices| && box.vertices[i].y == c.top
    ensures exists i :: 0 <= i < |box.vertices| && box.vertices[i].y == c.bottom
  {
    var vs := box.vertices;
    assert Coord(vs[0], X) == vs[0].x && Coord(vs[0], Y) == vs[0].y;
    Crop(Lowest(vs, X), Lowest(vs, Y), Highest(vs, X), Highest(vs, Y))
  }

  // ---------------------------------------------------------------- handwritten responses

  /**
   * `text_annotation.text if text_annotation else ""`: an annotation that is false has no
   * text, so this is always the annotation's text.
   */
  function ResponseText(a: TextAnnotation): (t: string)
    ensures t == a.text
  {
    if AnnotationTruthy(a) then a.text else ""
  }

  datatype Response = Response(key: string, text: string)

  /** `min()` of no vertices raises `ValueError`; `index` is the pair whose box has none. */
  datatype CropError = EmptyBoundingBox(index: nat)

  /**
   * `extract_handwritten_responses`: for each pair in order, the text Vision recognises in the
   * crop of its value box; fails at the first box without vertices.
   */
  method ExtractHandwrittenResponses(pairs: seq<KeyValuePair>, recognise: Crop -> TextAnnotation)
    returns (r: Result<seq<Response>, CropError>)
    ensures r.Failure? <==> exists i :: 0 <= i < |pairs| && |pairs[i].box.vertices| == 0
    ensures r.Failure? ==>
      r.error.index < |pairs| && |pairs[r.error.index].box.vertices| == 0
      && forall i :: 0 <= i < r.error.index ==> |pairs[i].box.vertices| > 0
    ensures r.Success? ==>
      |r.value| == |pairs|
      && forall i :: 0 <= i < |pairs| ==>
           |pairs[i].box.vertices| > 0 && r.value[i] == Response(pairs[i].key, recognise(BoxCrop(pairs[i].box)).text)
  {
    var responses: seq<Response> := [];
    var i := 0;
    while i < |pairs|
      invariant 0 <= i <= |pairs|
      invariant |responses| == i
      invariant forall j :: 0 <= j < i ==>
        |pairs[j].box.vertices| > 0 && responses[j] == Response(pairs[j].key, recognise(BoxCrop(pairs[j].box)).text)
    {
      var pair := pairs[i];
      if |pair.box.vertices| == 0 {
        return Failure(EmptyBoundingBox(i));
      }
      var crop := BoxCrop(pair.box);
      var annotation := recognise(crop);
      responses := responses + [Response(pair.key, ResponseText(annotation))];
      i := i + 1;
    }
    r := Success(responses);
  }

  // ---------------------------------------------------------------- main

  /**
   * The boxes of the pairs `find_key_value_pairs` finds all have vertices, so in this model,
   * where a box is true exactly when it has vertices, no crop fails.
   */
  lemma FoundBoxesHaveVertices(a: TextAnnotation, kws: seq<string>)
    ensures forall j :: 0 <= j < |AnnotationPairs(a, kws)| ==> |AnnotationPairs(a, kws)[j].box.vertices| > 0
  {
    AnnotationPairsKeys(a, kws);
    forall j | 0 <= j < |AnnotationPairs(a, kws)|
      ensures |AnnotationPairs(a, kws)[j].box.vertices| > 0
    {
      assert AnnotationPairs(a, kws)[j] in AnnotationPairs(a, kws);
    }
  }

  /** What `main` prints for one page. */
  datatype PageReport =
    | NoTextDetected
    | Analyzed(texts: seq<string>, pairs: seq<KeyValuePair>, responses: seq<Response>)

  datatype GoogleRun = FilePathMissing | Pages(reports: seq<PageReport>)

  /**
   * The report of page `page`: nothing when its annotation is false; otherwise the block
   * texts, the pairs found for the key words, and one response per pair, with the pair's key
   * and the text recognised in the crop of its value box.
   */
  predicate ReportsPage(report: PageReport, ann: TextAnnotation, kws: seq<string>,
                        recognise: (nat, Crop) -> TextAnnotation, page: nat)
  {
    if !AnnotationTruthy(ann) then report == NoTextDetected
    else
      report.Analyzed?
      && report.texts == AnnotationTexts(ann.pages)
      && report.pairs == AnnotationPairs(ann, kws)
      && |report.responses| == |report.pairs|
      && forall j :: 0 <= j < |report.pairs| ==>
           |report.pairs[j].box.vertices| > 0
           && report.responses[j] == Response(report.pairs[j].key, recognise(page, BoxCrop(report.pairs[j].box)).text)
  }

  /** The body of `main`'s page loop for page `page`, whose annotation is `ann`. */
  method AnalyzePage(ann: TextAnnotation, kws: seq<string>, recognise: (nat, Crop) -> TextAnnotation, page: nat)
    returns (report: PageReport)
    ensures ReportsPage(report, ann, kws, recognise, page)
  {
    if !AnnotationTruthy(ann) {
      return NoTextDetected;
    }
    var texts := ExtractTextAnnotations(ann);
    var pairs := FindKeyValuePairs(ann, kws);
    FoundBoxesHaveVertices(ann, kws);
    var responses := ExtractHandwrittenResponses(pairs, c => recognise(page, c));
    assert responses.Success?;
    report := Analyzed(texts, pairs, responses.value);
  }

  /** One report per page, in order, each as `ReportsPage` describes. */
  predicate ReportsPages(reports: seq<PageReport>, annotations: seq<TextAnnotation>, kws: seq<string>,
                         recognise: (nat, Crop) -> TextAnnotation)
  {
    |reports| == |annotations|
    && forall i :: 0 <= i < |annotations| ==> ReportsPage(reports[i], annotations[i], kws, recognise, i)
  }

  /** `main`'s page loop. */
  method AnalyzePages(annotations: seq<TextAnnotation>, kws: seq<string>, recognise: (nat, Crop) -> TextAnnotation)
    returns (reports: seq<PageReport>)
    ensures ReportsPages(reports, annotations, kws, recognise)
  {
    reports := [];
    var i := 0;
    while i < |annotations|
      invariant 0 <= i <= |annotations|
      invariant |reports| == i
      invariant forall j :: 0 <= j < i ==> ReportsPage(reports[j], annotations[j], kws, recognise, j)
    {
      var report := AnalyzePage(annotations[i], kws, recognise, i);
      reports := reports + [report];
      i := i + 1;
    }
  }

  /**
   * `main`: without `FILE_PATH` (unset or empty) nothing else happens and no client is built;
   * otherwise every page is reported, in order (with boxes true exactly when they have vertices,
   * no crop fails).
   */
  method RunGoogle(filePath: Option<string>, keyWordsEnv: Option<string>, annotations: seq<TextAnnotation>,
                   recognise: (nat, Crop) -> TextAnnotation)
    returns (run: GoogleRun, clientBuilt: bool)
    ensures run == FilePathMissing <==> filePath.None? || filePath.value == ""
    ensures clientBuilt <==> run.Pages?
    ensures run.Pages? ==> ReportsPages(run.reports, annotations, ParseKeyWords(keyWordsEnv), recognise)
  {
    if filePath.None? || filePath.value == "" {
      run, clientBuilt := FilePathMissing, false;
    } else {
      var keyWords := ParseKeyWords(keyWordsEnv);
      clientBuilt := true;
      var reports := AnalyzePages(annotations, keyWords, recognise);
      run := Pages(reports);
    }
  }
}
