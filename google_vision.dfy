/**
 * The Google Vision `full_text_annotation` as the Google tool reads it (google/tool.py), the
 * block texts it builds and the key/value heuristic of `find_key_value_pairs`, stated as
 * functions.
 *
 * Vision messages are protocol-buffer objects whose truth value is "some field is set": a
 * bounding box counts as true exactly when it has vertices (normalised vertices are not
 * modelled), an annotation when it has pages or text.
 */
module GoogleVision {
  import opened Wrappers
  import opened Seqs

  datatype Vertex = Vertex(x: int, y: int)
  datatype BoundingPoly = BoundingPoly(vertices: seq<Vertex>)
  datatype Symbol = Symbol(text: string)
  datatype Word = Word(symbols: seq<Symbol>, boundingBox: BoundingPoly)
  datatype Paragraph = Paragraph(words: seq<Word>)
  datatype TextBlock = TextBlock(paragraphs: seq<Paragraph>)
  datatype Page = Page(blocks: seq<TextBlock>)
  datatype TextAnnotation = TextAnnotation(pages: seq<Page>, text: string)

  /** The truth value of an optional bounding box (Python's `if key_bbox:`). */
  predicate Truthy(b: Option<BoundingPoly>)
  {
    b.Some? && |b.value.vertices| > 0
  }

  /** The truth value of an annotation (Python's `if text_annotation:`). */
  predicate AnnotationTruthy(a: TextAnnotation)
  {
    |a.pages| > 0 || a.text != ""
  }

  // ---------------------------------------------------------------- texts

  /** The concatenated texts of the symbols. */
  function SymbolsText(syms: seq<Symbol>): string
  {
    if syms == [] then "" else SymbolsText(syms[..|syms| - 1]) + syms[|syms| - 1].text
  }

  function WordText(w: Word): string
  {
    SymbolsText(w.symbols)
  }

  /** The concatenated texts of the words. */
  function WordsText(words: seq<Word>): string
  {
    if words == [] then "" else WordsText(words[..|words| - 1]) + WordText(words[|words| - 1])
  }

  /** The concatenated texts of the paragraphs. */
  function ParagraphsText(paras: seq<Paragraph>): string
  {
    if paras == [] then "" else ParagraphsText(paras[..|paras| - 1]) + WordsText(paras[|paras| - 1].words)
  }

  /** The concatenated symbol texts of a block, paragraph by paragraph and word by word. */
  function BlockText(b: TextBlock): string
  {
    ParagraphsText(b.paragraphs)
  }

  /** The text of each block. */
  function BlockTexts(blocks: seq<TextBlock>): (r: seq<string>)
    ensures |r| == |blocks| && forall i :: 0 <= i < |blocks| ==> r[i] == BlockText(blocks[i])
  {
    if blocks == [] then [] else BlockTexts(blocks[..|blocks| - 1]) + [BlockText(blocks[|blocks| - 1])]
  }

  /** The text of every block of `pages`, page by page and block by block. */
  function AnnotationTexts(pages: seq<Page>): seq<string>
  {
    if pages == [] then [] else AnnotationTexts(pages[..|pages| - 1]) + BlockTexts(pages[|pages| - 1].blocks)
  }

  /** The number of blocks on `pages`. */
  function BlockCount(pages: seq<Page>): nat
  {
    if pages == [] then 0 else BlockCount(pages[..|pages| - 1]) + |pages[|pages| - 1].blocks|
  }

  /** The texts of the first `p + 1` pages extend those of the first `p` by page `p`'s block texts. */
  lemma AnnotationTextsStep(pages: seq<Page>, p: nat)
    requires p < |pages|
    ensures AnnotationTexts(pages[..p + 1]) == AnnotationTexts(pages[..p]) + BlockTexts(pages[p].blocks)
    ensures BlockCount(pages[..p + 1]) == BlockCount(pages[..p]) + |pages[p].blocks|
  {
    assert pages[..p + 1][..p] == pages[..p];
  }

  /** There is one text per block. */
  lemma {:induction false} AnnotationTextsLength(pages: seq<Page>)
    ensures |AnnotationTexts(pages)| == BlockCount(pages)
  {
    if pages != [] {
      AnnotationTextsLength(pages[..|pages| - 1]);
    }
  }

  /** The text of block `b` of page `p` sits after the blocks of the pages before it. */
  lemma {:induction false} AnnotationTextAt(pages: seq<Page>, p: nat, b: nat)
    requires p < |pages| && b < |pages[p].blocks|
    ensures BlockCount(pages[..p]) + b < BlockCount(pages) == |AnnotationTexts(pages)|
    ensures AnnotationTexts(pages)[BlockCount(pages[..p]) + b] == BlockText(pages[p].blocks[b])
  {
    var n := |pages| - 1;
    AnnotationTextsLength(pages[..n]);
    AnnotationTextsLength(pages);
    assert pages[..n + 1] == pages;
    AnnotationTextsStep(pages, n);
    var front, last := AnnotationTexts(pages[..n]), BlockTexts(pages[n].blocks);
    assert AnnotationTexts(pages) == front + last;
    var k := BlockCount(pages[..p]) + b;
    if p < n {
      AnnotationTextAt(pages[..n], p, b);
      assert pages[..n][..p] == pages[..p];
      assert pages[..n][p] == pages[p];
      assert k < |front|;
      assert (front + last)[k] == front[k];
    } else {
      assert k - |front| == b;
      assert (front + last)[k] == last[b];
    }
  }

  lemma {:induction false} WordTextInWordsText(words: seq<Word>, w: nat)
    requires w < |words|
    ensures IsSubstring(WordText(words[w]), WordsText(words))
  {
    var n := |words| - 1;
    if w == n {
      SuffixIsSubstring(WordsText(words[..n]), WordText(words[n]));
    } else {
      WordTextInWordsText(words[..n], w);
      assert words[..n][w] == words[w];
      SubstringOfPrefix(WordText(words[w]), WordsText(words[..n]), WordText(words[n]));
    }
  }

  lemma {:induction false} ParagraphTextInParagraphsText(paras: seq<Paragraph>, p: nat)
    requires p < |paras|
    ensures IsSubstring(WordsText(paras[p].words), ParagraphsText(paras))
  {
    var n := |paras| - 1;
    if p == n {
      SuffixIsSubstring(ParagraphsText(paras[..n]), WordsText(paras[n].words));
    } else {
      ParagraphTextInParagraphsText(paras[..n], p);
      assert paras[..n][p] == paras[p];
      SubstringOfPrefix(WordsText(paras[p].words), ParagraphsText(paras[..n]), WordsText(paras[n].words));
    }
  }

  /** The text of each word occurs in the text of its block. */
  lemma WordTextInBlockText(b: TextBlock, p: nat, w: nat)
    requires p < |b.paragraphs| && w < |b.paragraphs[p].words|
    ensures IsSubstring(WordText(b.paragraphs[p].words[w]), BlockText(b))
  {
    WordTextInWordsText(b.paragraphs[p].words, w);
    ParagraphTextInParagraphsText(b.paragraphs, p);
    SubstringTransitive(WordText(b.paragraphs[p].words[w]), WordsText(b.paragraphs[p].words), BlockText(b));
  }

  // ---------------------------------------------------------------- the key/value heuristic

  /** A key word and the bounding box of the word taken as its value. */
  datatype KeyValuePair = KeyValuePair(key: string, box: BoundingPoly)

  /** The loop variables `key_bbox` and `value_bbox`. */
  datatype ScanState = ScanState(keyBox: Option<BoundingPoly>, valueBox: Option<BoundingPoly>)

  const Disarmed := ScanState(None, None)

  /**
   * The word loop of one paragraph from word `i`: a word whose text is the key word arms the
   * key (with its box); the next other word, while the key is armed, gives the value box and
   * ends the paragraph's loop.
   */
  function ScanWords(words: seq<Word>, kw: string, i: nat, st: ScanState): ScanState
    decreases |words| - i
  {
    if i >= |words| then st
    else if WordText(words[i]) == kw then ScanWords(words, kw, i + 1, st.(keyBox := Some(words[i].boundingBox)))
    else if Truthy(st.keyBox) then st.(valueBox := Some(words[i].boundingBox))
    else ScanWords(words, kw, i + 1, st)
  }

  /**
   * The paragraph loop from paragraph `p`: after each paragraph a pair is emitted when both
   * boxes are set, and the state is reset; otherwise the state carries over.
   */
  function ScanParagraphs(paras: seq<Paragraph>, kw: string, p: nat, st: ScanState): seq<KeyValuePair>
    decreases |paras| - p
  {
    if p >= |paras| then []
    else
      var after := ScanWords(paras[p].words, kw, 0, st);
      if Truthy(after.keyBox) && Truthy(after.valueBox) then
        [KeyValuePair(kw, after.valueBox.value)] + ScanParagraphs(paras, kw, p + 1, Disarmed)
      else
        ScanParagraphs(paras, kw, p + 1, after)
  }

  /** The pairs one block gives for one key word; the state starts disarmed. */
  function BlockKeywordPairs(b: TextBlock, kw: string): seq<KeyValuePair>
  {
    if Contains(BlockText(b), kw) then ScanParagraphs(b.paragraphs, kw, 0, Disarmed) else []
  }

  /** The key word loop from key word `k`. */
  function KeywordsPairs(b: TextBlock, kws: seq<string>, k: nat): seq<KeyValuePair>
    decreases |kws| - k
  {
    if k >= |kws| then [] else BlockKeywordPairs(b, kws[k]) + KeywordsPairs(b, kws, k + 1)
  }

  /** The block loop from block `b`. */
  function BlocksPairs(blocks: seq<TextBlock>, kws: seq<string>, b: nat): seq<KeyValuePair>
    decreases |blocks| - b
  {
    if b >= |blocks| then [] else KeywordsPairs(blocks[b], kws, 0) + BlocksPairs(blocks, kws, b + 1)
  }

  /** The page loop from page `p`. */
  function PagesPairs(pages: seq<Page>, kws: seq<string>, p: nat): seq<KeyValuePair>
    decreases |pages| - p
  {
    if p >= |pages| then [] else BlocksPairs(pages[p].blocks, kws, 0) + PagesPairs(pages, kws, p + 1)
  }

  /** All pairs: by page, then block, then key word, then paragraph. */
  function AnnotationPairs(a: TextAnnotation, kws: seq<string>): seq<KeyValuePair>
  {
    PagesPairs(a.pages, kws, 0)
  }

  // ---------------------------------------------------------------- properties of the heuristic

  /**
   * Word `j` is where the word loop started at `i` in state `st` can take its value from: not
   * the key word, and either the first word with the key already armed, or right after an
   * arming key word.
   */
  predicate ValueWordFrom(words: seq<Word>, kw: string, i: nat, st: ScanState, j: int)
  {
    i <= j < |words| && WordText(words[j]) != kw
    && (j == i ==> Truthy(st.keyBox))
    && (j > i ==> WordText(words[j - 1]) == kw && Truthy(Some(words[j - 1].boundingBox)))
  }

  /**
   * The word loop either sets its value box to the box of a word described by `ValueWordFrom`,
   * with the key box set, or meets no such word and keeps the value box it started with. So
   * when it ends with a value box that has vertices, the key box has them too and the value box
   * comes from such a word.
   */
  lemma {:induction false} ScanWordsValue(words: seq<Word>, kw: string, i: nat, st: ScanState)
    requires !Truthy(st.valueBox)
    ensures var r := ScanWords(words, kw, i, st);
      Truthy(r.valueBox) ==>
        Truthy(r.keyBox) && exists j :: ValueWordFrom(words, kw, i, st, j) && r.valueBox == Some(words[j].boundingBox)
    ensures var r := ScanWords(words, kw, i, st);
      (Truthy(r.keyBox) && exists j :: ValueWordFrom(words, kw, i, st, j) && r.valueBox == Some(words[j].boundingBox))
      || ((forall j :: !ValueWordFrom(words, kw, i, st, j)) && r.valueBox == st.valueBox)
    decreases |words| - i
  {
    if i <= |words| {
      ScanWordsTakesFirstValueWord(words, kw, i, st);
      var j := FirstValueWord(words, kw, i, st, i);
      if j < |words| {
        ValueWordIsArmed(words, kw, i, st, j);
      }
    }
    if i < |words| {
      var r := ScanWords(words, kw, i, st);
      if WordText(words[i]) == kw {
        var armed := st.(keyBox := Some(words[i].boundingBox));
        ScanWordsValue(words, kw, i + 1, armed);
        if Truthy(r.valueBox) {
          var j :| ValueWordFrom(words, kw, i + 1, armed, j) && r.valueBox == Some(words[j].boundingBox);
          assert ValueWordFrom(words, kw, i, st, j);
        }
      } else if !Truthy(st.keyBox) {
        ScanWordsValue(words, kw, i + 1, st);
        if Truthy(r.valueBox) {
          var j :| ValueWordFrom(words, kw, i + 1, st, j) && r.valueBox == Some(words[j].boundingBox);
          assert ValueWordFrom(words, kw, i, st, j);
        }
      } else {
        assert ValueWordFrom(words, kw, i, st, i);
      }
    }
  }

  /**
   * The key box of the word loop started at `i` in state `st` when it reaches word `k`: the box
   * of the last word in `words[i..k]` whose text is the key word, or the key box it started with.
   */
  function KeyBoxBefore(words: seq<Word>, kw: string, i: nat, st: ScanState, k: nat): Option<BoundingPoly>
    requires k <= |words|
  {
    if k <= i then st.keyBox
    else if WordText(words[k - 1]) == kw then Some(words[k - 1].boundingBox)
    else KeyBoxBefore(words, kw, i, st, k - 1)
  }

  /** The first word from `from` on that `ValueWordFrom` describes, or `|words|` when there is none. */
  function FirstValueWord(words: seq<Word>, kw: string, i: nat, st: ScanState, from: nat): (j: nat)
    requires from <= |words|
    ensures from <= j <= |words|
    ensures j < |words| ==> ValueWordFrom(words, kw, i, st, j)
    ensures forall k :: from <= k < j ==> !ValueWordFrom(words, kw, i, st, k)
    decreases |words| - from
  {
    if from == |words| || ValueWordFrom(words, kw, i, st, from) then from
    else FirstValueWord(words, kw, i, st, from + 1)
  }

  /** The first value word depends only on which words are value words. */
  lemma {:induction false} FirstValueWordSame(words: seq<Word>, kw: string, i: nat, st: ScanState,
                                              i': nat, st': ScanState, from: nat)
    requires from <= |words|
    requires forall k :: from <= k < |words| ==>
      (ValueWordFrom(words, kw, i, st, k) <==> ValueWordFrom(words, kw, i', st', k))
    ensures FirstValueWord(words, kw, i, st, from) == FirstValueWord(words, kw, i', st', from)
    decreases |words| - from
  {
    if from < |words| {
      FirstValueWordSame(words, kw, i, st, i', st', from + 1);
    }
  }

  /** Starting one word later, with the key box the loop holds there, gives the same key boxes. */
  lemma {:induction false} KeyBoxBeforeShift(words: seq<Word>, kw: string, i: nat, st: ScanState, st': ScanState, k: nat)
    requires i + 1 <= k <= |words|
    requires st'.keyBox == KeyBoxBefore(words, kw, i, st, i + 1)
    ensures KeyBoxBefore(words, kw, i, st, k) == KeyBoxBefore(words, kw, i + 1, st', k)
    decreases k
  {
    if k > i + 1 && WordText(words[k - 1]) != kw {
      KeyBoxBeforeShift(words, kw, i, st, st', k - 1);
    }
  }

  /**
   * The word loop exactly: it takes its value box from the FIRST word `ValueWordFrom` describes
   * and then holds the key box of the last key word before it; when there is no such word, it
   * keeps the value box it started with and ends holding the key box of the paragraph's last
   * key word (or the one it started with).
   */
  lemma {:induction false} ScanWordsTakesFirstValueWord(words: seq<Word>, kw: string, i: nat, st: ScanState)
    requires i <= |words|
    ensures var j := FirstValueWord(words, kw, i, st, i);
      ScanWords(words, kw, i, st)
        == ScanState(KeyBoxBefore(words, kw, i, st, j), if j < |words| then Some(words[j].boundingBox) else st.valueBox)
    decreases |words| - i
  {
    if i < |words| {
      var j := FirstValueWord(words, kw, i, st, i);
      if WordText(words[i]) == kw || !Truthy(st.keyBox) {
        var st' := if WordText(words[i]) == kw then st.(keyBox := Some(words[i].boundingBox)) else st;
        ScanWordsTakesFirstValueWord(words, kw, i + 1, st');
        assert !ValueWordFrom(words, kw, i, st, i);
        assert j == FirstValueWord(words, kw, i, st, i + 1);
        FirstValueWordSame(words, kw, i, st, i + 1, st', i + 1);
        KeyBoxBeforeShift(words, kw, i, st, st', j);
      } else {
        assert ValueWordFrom(words, kw, i, st, i);
      }
    }
  }

  /** A value word is met with the key armed. */
  lemma ValueWordIsArmed(words: seq<Word>, kw: string, i: nat, st: ScanState, j: nat)
    requires j <= |words| && ValueWordFrom(words, kw, i, st, j)
    ensures Truthy(KeyBoxBefore(words, kw, i, st, j))
  {
  }

  /**
   * One paragraph of the loop, entered without a value box. When the paragraph has a first
   * value word whose box has vertices, exactly one pair, with that box, is emitted and the
   * next paragraph starts disarmed. Otherwise nothing is emitted, and the next paragraph starts
   * with the key box this one ended with and, if a value word without vertices was met, that
   * word's box, the key then being armed.
   */
  lemma ScanParagraphsStep(paras: seq<Paragraph>, kw: string, p: nat, st: ScanState)
    requires p < |paras| && !Truthy(st.valueBox)
    ensures var words := paras[p].words;
            var j := FirstValueWord(words, kw, 0, st, 0);
            var carried := ScanState(KeyBoxBefore(words, kw, 0, st, j), if j < |words| then Some(words[j].boundingBox) else st.valueBox);
            (j < |words| && |words[j].boundingBox.vertices| > 0 ==>
               ScanParagraphs(paras, kw, p, st) == [KeyValuePair(kw, words[j].boundingBox)] + ScanParagraphs(paras, kw, p + 1, Disarmed))
            && (!(j < |words| && |words[j].boundingBox.vertices| > 0) ==>
               ScanParagraphs(paras, kw, p, st) == ScanParagraphs(paras, kw, p + 1, carried)
               && !Truthy(carried.valueBox)
               && (j < |words| ==> Truthy(carried.keyBox)))
  {
    var words := paras[p].words;
    ScanWordsTakesFirstValueWord(words, kw, 0, st);
    var j := FirstValueWord(words, kw, 0, st, 0);
    if j < |words| {
      ValueWordIsArmed(words, kw, 0, st, j);
    }
  }

  /**
   * Word `j` of paragraph `q` can give a value box: its text is not the key word, and it is
   * either the first word of its paragraph or directly follows a word whose text is the key
   * word and whose box is set.
   */
  predicate IsValueWord(paras: seq<Paragraph>, kw: string, q: int, j: int)
  {
    0 <= q < |paras| && 0 <= j < |paras[q].words|
    && WordText(paras[q].words[j]) != kw
    && (j > 0 ==> WordText(paras[q].words[j - 1]) == kw && Truthy(Some(paras[q].words[j - 1].boundingBox)))
  }

  /**
   * `src` numbers the pairs of the paragraph loop started at `p` by the paragraph each one is
   * emitted after: the indices rise strictly, every pair has the key word and a box with
   * vertices, and after pair `k` the loop starts again, disarmed, at paragraph `src[k] + 1`.
   * So each paragraph emits at most one pair, and the pairs come in paragraph order.
   */
  predicate EmittedAfter(paras: seq<Paragraph>, kw: string, p: nat, pairs: seq<KeyValuePair>, src: seq<nat>)
  {
    |src| == |pairs|
    && (forall k :: 0 <= k < |src| ==> EmittedAt(paras, kw, p, pairs[k..], src[k]))
    && (forall k :: 0 < k < |src| ==> src[k - 1] < src[k])
  }

  /**
   * The first of `pairs` has the key word and a box with vertices and is emitted after
   * paragraph `q`, at or after `p`: the rest is what the loop gives from `q + 1`, disarmed.
   */
  predicate EmittedAt(paras: seq<Paragraph>, kw: string, p: nat, pairs: seq<KeyValuePair>, q: nat)
  {
    p <= q < |paras| && |pairs| > 0 && pairs[0].key == kw && |pairs[0].box.vertices| > 0
    && pairs[1..] == ScanParagraphs(paras, kw, q + 1, Disarmed)
  }

  /**
   * Some word of paragraph `q` described by `IsValueWord` has box `box`; its first word counts
   * only when `firstOk` holds.
   */
  ghost predicate BoxOfValueWord(paras: seq<Paragraph>, kw: string, q: nat, box: BoundingPoly, firstOk: bool)
  {
    exists j :: IsValueWord(paras, kw, q, j) && box == paras[q].words[j].boundingBox && (j == 0 ==> firstOk)
  }

  /** Emitting one pair at paragraph `p` before the pairs from `p + 1` on extends their numbering. */
  lemma EmittedAfterCons(paras: seq<Paragraph>, kw: string, p: nat, pr: KeyValuePair,
                         rest: seq<KeyValuePair>, src: seq<nat>)
    requires p < |paras| && pr.key == kw && |pr.box.vertices| > 0
    requires rest == ScanParagraphs(paras, kw, p + 1, Disarmed)
    requires EmittedAfter(paras, kw, p + 1, rest, src)
    ensures EmittedAfter(paras, kw, p, [pr] + rest, [p] + src)
  {
    var pairs, src' := [pr] + rest, [p] + src;
    forall k | 0 <= k < |src'|
      ensures EmittedAt(paras, kw, p, pairs[k..], src'[k])
    {
      if k == 0 {
        assert pairs[0..] == pairs && pairs[1..] == rest;
      } else {
        assert pairs[k..] == rest[k - 1..] && src'[k] == src[k - 1];
        assert EmittedAt(paras, kw, p + 1, rest[k - 1..], src[k - 1]);
      }
    }
  }

  /**
   * Every pair of the paragraph loop has the key word as key and a box with vertices taken
   * from a value word; a paragraph's first word is taken only in a later paragraph than the
   * one the loop starts at, or when the loop starts with the key armed.
   */
  lemma {:induction false} ScanParagraphsPairs(paras: seq<Paragraph>, kw: string, p: nat, st: ScanState)
    requires !Truthy(st.valueBox)
    ensures forall pr :: pr in ScanParagraphs(paras, kw, p, st) ==>
      pr.key == kw && |pr.box.vertices| > 0
      && exists q, j :: p <= q && IsValueWord(paras, kw, q, j) && pr.box == paras[q].words[j].boundingBox
                        && (j == 0 ==> q > p || Truthy(st.keyBox))
    decreases |paras| - p
  {
    if p < |paras| {
      var words := paras[p].words;
      var after := ScanWords(words, kw, 0, st);
      ScanWordsValue(words, kw, 0, st);
      if Truthy(after.keyBox) && Truthy(after.valueBox) {
        ScanParagraphsPairs(paras, kw, p + 1, Disarmed);
        var j :| ValueWordFrom(words, kw, 0, st, j) && after.valueBox == Some(words[j].boundingBox);
        assert IsValueWord(paras, kw, p, j);
        var first := KeyValuePair(kw, after.valueBox.value);
        assert ScanParagraphs(paras, kw, p, st) == [first] + ScanParagraphs(paras, kw, p + 1, Disarmed);
      } else {
        ScanParagraphsPairs(paras, kw, p + 1, after);
      }
    }
  }

  /**
   * Pair `k` holds the box of a value word of paragraph `src[k]`; that paragraph's first word
   * counts only when `src[k] > p` or `armed`.
   */
  ghost predicate FromValueWords(paras: seq<Paragraph>, kw: string, p: nat, armed: bool,
                                 pairs: seq<KeyValuePair>, src: seq<nat>)
  {
    forall k :: 0 <= k < |src| && k < |pairs| ==> BoxOfValueWord(paras, kw, src[k], pairs[k].box, src[k] > p || armed)
  }

  /** Pairs numbered from paragraph `p + 1` on need no armed start when read from `p`. */
  lemma FromValueWordsLater(paras: seq<Paragraph>, kw: string, p: nat, armed: bool, armed': bool,
                            pairs: seq<KeyValuePair>, src: seq<nat>)
    requires EmittedAfter(paras, kw, p + 1, pairs, src)
    requires FromValueWords(paras, kw, p + 1, armed', pairs, src)
    ensures FromValueWords(paras, kw, p, armed, pairs, src)
  {
    forall k | 0 <= k < |src| && k < |pairs|
      ensures BoxOfValueWord(paras, kw, src[k], pairs[k].box, src[k] > p || armed)
    {
      assert src[k] > p;
      var j :| IsValueWord(paras, kw, src[k], j) && pairs[k].box == paras[src[k]].words[j].boundingBox
        && (j == 0 ==> src[k] > p + 1 || armed');
    }
  }

  /** A pair from a value word of paragraph `p` in front of the pairs from `p + 1` on. */
  lemma FromValueWordsCons(paras: seq<Paragraph>, kw: string, p: nat, armed: bool, pr: KeyValuePair,
                           rest: seq<KeyValuePair>, src: seq<nat>)
    requires BoxOfValueWord(paras, kw, p, pr.box, armed)
    requires EmittedAfter(paras, kw, p + 1, rest, src)
    requires FromValueWords(paras, kw, p + 1, false, rest, src)
    ensures FromValueWords(paras, kw, p, armed, [pr] + rest, [p] + src)
  {
    FromValueWordsLater(paras, kw, p, armed, false, rest, src);
    var pairs, src' := [pr] + rest, [p] + src;
    forall k | 0 <= k < |src'| && k < |pairs|
      ensures BoxOfValueWord(paras, kw, src'[k], pairs[k].box, src'[k] > p || armed)
    {
      if k > 0 {
        assert pairs[k] == rest[k - 1] && src'[k] == src[k - 1];
      }
    }
  }

  /**
   * The pairs of the paragraph loop, entered without a value box, come from distinct
   * paragraphs in paragraph order, as `EmittedAfter` numbers them, and each pair's box is that
   * of a value word of the paragraph it is emitted after; that paragraph's first word counts
   * only after the starting paragraph, or from an armed start.
   */
  lemma {:induction false} PairsByParagraph(paras: seq<Paragraph>, kw: string, p: nat, st: ScanState)
    requires !Truthy(st.valueBox)
    ensures exists src ::
              EmittedAfter(paras, kw, p, ScanParagraphs(paras, kw, p, st), src)
              && FromValueWords(paras, kw, p, Truthy(st.keyBox), ScanParagraphs(paras, kw, p, st), src)
    decreases |paras| - p
  {
    var pairs := ScanParagraphs(paras, kw, p, st);
    if p < |paras| {
      var words := paras[p].words;
      var after := ScanWords(words, kw, 0, st);
      ScanWordsValue(words, kw, 0, st);
      if Truthy(after.keyBox) && Truthy(after.valueBox) {
        var rest := ScanParagraphs(paras, kw, p + 1, Disarmed);
        PairsByParagraph(paras, kw, p + 1, Disarmed);
        var j :| ValueWordFrom(words, kw, 0, st, j) && after.valueBox == Some(words[j].boundingBox);
        assert IsValueWord(paras, kw, p, j);
        var first := KeyValuePair(kw, after.valueBox.value);
        assert BoxOfValueWord(paras, kw, p, first.box, Truthy(st.keyBox));
        assert pairs == [first] + rest;
        var src :| EmittedAfter(paras, kw, p + 1, rest, src) && FromValueWords(paras, kw, p + 1, false, rest, src);
        EmittedAfterCons(paras, kw, p, first, rest, src);
        FromValueWordsCons(paras, kw, p, Truthy(st.keyBox), first, rest, src);
        assert EmittedAfter(paras, kw, p, pairs, [p] + src) && FromValueWords(paras, kw, p, Truthy(st.keyBox), pairs, [p] + src);
      } else {
        PairsByParagraph(paras, kw, p + 1, after);
        var src :| EmittedAfter(paras, kw, p + 1, pairs, src) && FromValueWords(paras, kw, p + 1, Truthy(after.keyBox), pairs, src);
        FromValueWordsLater(paras, kw, p, Truthy(st.keyBox), Truthy(after.keyBox), pairs, src);
        assert EmittedAfter(paras, kw, p, pairs, src) && FromValueWords(paras, kw, p, Truthy(st.keyBox), pairs, src);
      }
    } else {
      var none: seq<nat> := [];
      assert EmittedAfter(paras, kw, p, pairs, none) && FromValueWords(paras, kw, p, Truthy(st.keyBox), pairs, none);
    }
  }

  /**
   * From any state, each paragraph emits at most one pair: the pairs are numbered by strictly
   * rising paragraph indices as `EmittedAfter` says, so there are no more pairs than
   * paragraphs.
   */
  lemma {:induction false} AtMostOnePairPerParagraph(paras: seq<Paragraph>, kw: string, p: nat, st: ScanState)
    requires p <= |paras|
    ensures |ScanParagraphs(paras, kw, p, st)| <= |paras| - p
    ensures exists src :: EmittedAfter(paras, kw, p, ScanParagraphs(paras, kw, p, st), src)
    decreases |paras| - p
  {
    var pairs := ScanParagraphs(paras, kw, p, st);
    if p < |paras| {
      var after := ScanWords(paras[p].words, kw, 0, st);
      AtMostOnePairPerParagraph(paras, kw, p + 1, Disarmed);
      AtMostOnePairPerParagraph(paras, kw, p + 1, after);
      if Truthy(after.keyBox) && Truthy(after.valueBox) {
        var rest := ScanParagraphs(paras, kw, p + 1, Disarmed);
        var first := KeyValuePair(kw, after.valueBox.value);
        assert pairs == [first] + rest;
        var src :| EmittedAfter(paras, kw, p + 1, rest, src);
        EmittedAfterCons(paras, kw, p, first, rest, src);
      } else {
        var src :| EmittedAfter(paras, kw, p + 1, pairs, src);
        assert EmittedAfter(paras, kw, p, pairs, src);
      }
    } else {
      assert EmittedAfter(paras, kw, p, pairs, []);
    }
  }

  /**
   * In one block, a key word gives no more pairs than paragraphs; the pairs come from distinct
   * paragraphs in order, each holding the box of a value word of the paragraph it is emitted
   * after; a paragraph's first word is never taken in the block's first paragraph.
   */
  lemma BlockKeywordPairsShape(b: TextBlock, kw: string)
    ensures |BlockKeywordPairs(b, kw)| <= |b.paragraphs|
    ensures forall pr :: pr in BlockKeywordPairs(b, kw) ==>
      pr.key == kw && |pr.box.vertices| > 0
      && exists q, j :: IsValueWord(b.paragraphs, kw, q, j) && pr.box == b.paragraphs[q].words[j].boundingBox
                        && (j == 0 ==> q > 0)
    ensures var pairs := BlockKeywordPairs(b, kw);
      exists src :: EmittedAfter(b.paragraphs, kw, 0, pairs, src) && FromValueWords(b.paragraphs, kw, 0, false, pairs, src)
  {
    AtMostOnePairPerParagraph(b.paragraphs, kw, 0, Disarmed);
    ScanParagraphsPairs(b.paragraphs, kw, 0, Disarmed);
    PairsByParagraph(b.paragraphs, kw, 0, Disarmed);
    SubstringGuardIsRedundant(b, kw);
  }

  /** Without a word equal to the key word, the word loop leaves a disarmed state as it is. */
  lemma {:induction false} ScanWordsWithoutKeyword(words: seq<Word>, kw: string, i: nat, st: ScanState)
    requires !Truthy(st.keyBox)
    requires forall j :: i <= j < |words| ==> WordText(words[j]) != kw
    ensures ScanWords(words, kw, i, st) == st
    decreases |words| - i
  {
    if i < |words| {
      ScanWordsWithoutKeyword(words, kw, i + 1, st);
    }
  }

  lemma {:induction false} ScanParagraphsWithoutKeyword(paras: seq<Paragraph>, kw: string, p: nat, st: ScanState)
    requires !Truthy(st.keyBox)
    requires forall q, j :: p <= q < |paras| && 0 <= j < |paras[q].words| ==> WordText(paras[q].words[j]) != kw
    ensures ScanParagraphs(paras, kw, p, st) == []
    decreases |paras| - p
  {
    if p < |paras| {
      ScanWordsWithoutKeyword(paras[p].words, kw, 0, st);
      ScanParagraphsWithoutKeyword(paras, kw, p + 1, st);
    }
  }

  /**
   * The `key_word in block_text` test never hides a pair: a block whose text does not contain
   * the key word has no word equal to it, so the paragraph loop would find nothing anyway.
   */
  lemma SubstringGuardIsRedundant(b: TextBlock, kw: string)
    ensures BlockKeywordPairs(b, kw) == ScanParagraphs(b.paragraphs, kw, 0, Disarmed)
  {
    ContainsIsSubstring(BlockText(b), kw);
    if !Contains(BlockText(b), kw) {
      forall q, j | 0 <= q < |b.paragraphs| && 0 <= j < |b.paragraphs[q].words|
        ensures WordText(b.paragraphs[q].words[j]) != kw
      {
        WordTextInBlockText(b, q, j);
      }
      ScanParagraphsWithoutKeyword(b.paragraphs, kw, 0, Disarmed);
    }
  }

  /** The key word loop: every pair is keyed by one of the key words found in the block's text. */
  lemma {:induction false} KeywordsPairsKeys(b: TextBlock, kws: seq<string>, k: nat)
    ensures forall pr :: pr in KeywordsPairs(b, kws, k) ==>
      pr.key in kws && IsSubstring(pr.key, BlockText(b)) && |pr.box.vertices| > 0
    decreases |kws| - k
  {
    if k < |kws| {
      BlockKeywordPairsShape(b, kws[k]);
      ContainsIsSubstring(BlockText(b), kws[k]);
      KeywordsPairsKeys(b, kws, k + 1);
    }
  }

  lemma {:induction false} BlocksPairsKeys(blocks: seq<TextBlock>, kws: seq<string>, c: nat)
    ensures forall pr :: pr in BlocksPairs(blocks, kws, c) ==>
      pr.key in kws && |pr.box.vertices| > 0
      && exists d :: c <= d < |blocks| && IsSubstring(pr.key, BlockText(blocks[d]))
    decreases |blocks| - c
  {
    if c < |blocks| {
      KeywordsPairsKeys(blocks[c], kws, 0);
      BlocksPairsKeys(blocks, kws, c + 1);
    }
  }

  lemma {:induction false} PagesPairsKeys(pages: seq<Page>, kws: seq<string>, p: nat)
    ensures forall pr :: pr in PagesPairs(pages, kws, p) ==>
      pr.key in kws && |pr.box.vertices| > 0
      && exists q, d :: p <= q < |pages| && 0 <= d < |pages[q].blocks| && IsSubstring(pr.key, BlockText(pages[q].blocks[d]))
    decreases |pages| - p
  {
    if p < |pages| {
      BlocksPairsKeys(pages[p].blocks, kws, 0);
      PagesPairsKeys(pages, kws, p + 1);
    }
  }

  /**
   * Every pair's key is one of the key words and occurs in the text of a block of the
   * annotation, and every pair's box has vertices.
   */
  lemma AnnotationPairsKeys(a: TextAnnotation, kws: seq<string>)
    ensures forall pr :: pr in AnnotationPairs(a, kws) ==>
      pr.key in kws && |pr.box.vertices| > 0
      && exists q, d :: 0 <= q < |a.pages| && 0 <= d < |a.pages[q].blocks| && IsSubstring(pr.key, BlockText(a.pages[q].blocks[d]))
  {
    PagesPairsKeys(a.pages, kws, 0);
  }

  lemma {:induction false} BlocksPairsNoKeyWords(blocks: seq<TextBlock>, c: nat)
    ensures BlocksPairs(blocks, [], c) == []
    decreases |blocks| - c
  {
    if c < |blocks| {
      BlocksPairsNoKeyWords(blocks, c + 1);
    }
  }

  lemma {:induction false} PagesPairsNoKeyWords(pages: seq<Page>, p: nat)
    ensures PagesPairs(pages, [], p) == []
    decreases |pages| - p
  {
    if p < |pages| {
      BlocksPairsNoKeyWords(pages[p].blocks, 0);
      PagesPairsNoKeyWords(pages, p + 1);
    }
  }

  /** Without key words there are no pairs. */
  lemma NoKeyWordsNoPairs(a: TextAnnotation)
    ensures AnnotationPairs(a, []) == []
  {
    PagesPairsNoKeyWords(a.pages, 0);
  }
}
