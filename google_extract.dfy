/**
 * The loops of `extract_text_annotations` and `find_key_value_pairs` (google/tool.py), each
 * proved to compute the function of the annotation that specifies it.
 */
module GoogleExtract {
  import opened Wrappers
  import opened Seqs
  import opened GoogleVision

  /** `extract_text_annotations`: the text of every block of the annotation, in order. */
  method ExtractTextAnnotations(ann: TextAnnotation) returns (texts: seq<string>)
    ensures texts == AnnotationTexts(ann.pages)
    ensures |texts| == BlockCount(ann.pages)
  {
    var pages := ann.pages;
    texts := [];
    var p := 0;
    while p < |pages|
      invariant 0 <= p <= |pages|
      invariant texts == AnnotationTexts(pages[..p])
    {
      var blocks := pages[p].blocks;
      var b := 0;
      while b < |blocks|
        invariant 0 <= b <= |blocks|
        invariant texts == AnnotationTexts(pages[..p]) + BlockTexts(blocks[..b])
      {
        var blockText := BlockText(blocks[b]);
        assert blocks[..b + 1][..b] == blocks[..b];
        texts := texts + [blockText];
        b := b + 1;
      }
      assert blocks[..b] == blocks;
      AnnotationTextsStep(pages, p);
      p := p + 1;
    }
    assert pages[..p] == pages;
    AnnotationTextsLength(pages);
  }

  /**
   * The word loop of one paragraph, which stops at the word that gives the value box.
   */
  method ScanParagraph(words: seq<Word>, kw: string, st: ScanState) returns (after: ScanState)
    ensures after == ScanWords(words, kw, 0, st)
  {
    var keyBox, valueBox := st.keyBox, st.valueBox;
    var w := 0;
    while w < |words|
      invariant 0 <= w <= |words|
      invariant ScanWords(words, kw, 0, st) == ScanWords(words, kw, w, ScanState(keyBox, valueBox))
    {
      var word := words[w];
      var wordText := WordText(word);
      if wordText == kw {
        keyBox := Some(word.boundingBox);
      } else if Truthy(keyBox) {
        valueBox := Some(word.boundingBox);
        return ScanState(keyBox, valueBox);
      }
      w := w + 1;
    }
    after := ScanState(keyBox, valueBox);
  }

  /** The paragraph loop of one block for one key word, starting disarmed. */
  method ScanBlock(block: TextBlock, kw: string) returns (found: seq<KeyValuePair>)
    ensures found == ScanParagraphs(block.paragraphs, kw, 0, Disarmed)
  {
    var paras := block.paragraphs;
    found := [];
    var st := Disarmed;
    var q := 0;
    while q < |paras|
      invariant 0 <= q <= |paras|
      invariant ScanParagraphs(paras, kw, 0, Disarmed) == found + ScanParagraphs(paras, kw, q, st)
    {
      st := ScanParagraph(paras[q].words, kw, st);
      if Truthy(st.keyBox) && Truthy(st.valueBox) {
        found := found + [KeyValuePair(kw, st.valueBox.value)];
        st := Disarmed;
      }
      q := q + 1;
    }
  }

  /** One round of the key word loop appends the pairs of key word `k`. */
  lemma KeywordsPairsStep(block: TextBlock, kws: seq<string>, k: nat, found: seq<KeyValuePair>, more: seq<KeyValuePair>)
    requires k < |kws|
    requires more == (if Contains(BlockText(block), kws[k]) then ScanParagraphs(block.paragraphs, kws[k], 0, Disarmed) else [])
    ensures found + KeywordsPairs(block, kws, k) == (found + more) + KeywordsPairs(block, kws, k + 1)
  {
    assert KeywordsPairs(block, kws, k) == more + KeywordsPairs(block, kws, k + 1);
  }

  /** The key word loop of one block: the paragraph loop for each key word found in the block's text. */
  method BlockPairs(block: TextBlock, kws: seq<string>) returns (found: seq<KeyValuePair>)
    ensures found == KeywordsPairs(block, kws, 0)
  {
    var blockText := BlockText(block);
    found := [];
    var k := 0;
    while k < |kws|
      invariant 0 <= k <= |kws|
      invariant KeywordsPairs(block, kws, 0) == found + KeywordsPairs(block, kws, k)
    {
      var more: seq<KeyValuePair> := [];
      if Contains(blockText, kws[k]) {
        more := ScanBlock(block, kws[k]);
      }
      KeywordsPairsStep(block, kws, k, found, more);
      found := found + more;
      k := k + 1;
    }
  }

  /** The block loop of one page. */
  method PagePairs(page: Page, kws: seq<string>) returns (found: seq<KeyValuePair>)
    ensures found == BlocksPairs(page.blocks, kws, 0)
  {
    var blocks := page.blocks;
    found := [];
    var b := 0;
    while b < |blocks|
      invariant 0 <= b <= |blocks|
      invariant BlocksPairs(blocks, kws, 0) == found + BlocksPairs(blocks, kws, b)
    {
      var more := BlockPairs(blocks[b], kws);
      ghost var rest := BlocksPairs(blocks, kws, b + 1);
      assert BlocksPairs(blocks, kws, b) == more + rest;
      assert found + (more + rest) == (found + more) + rest;
      found := found + more;
      b := b + 1;
    }
  }

  /**
   * `find_key_value_pairs`: for every page, block and key word found in the block's text,
   * the pairs of the paragraph loop, in that order.
   */
  method FindKeyValuePairs(ann: TextAnnotation, kws: seq<string>) returns (pairs: seq<KeyValuePair>)
    ensures pairs == AnnotationPairs(ann, kws)
  {
    var pages := ann.pages;
    pairs := [];
    var p := 0;
    while p < |pages|
      invariant 0 <= p <= |pages|
      invariant AnnotationPairs(ann, kws) == pairs + PagesPairs(pages, kws, p)
    {
      var more := PagePairs(pages[p], kws);
      ghost var rest := PagesPairs(pages, kws, p + 1);
      assert PagesPairs(pages, kws, p) == more + rest;
      assert pairs + (more + rest) == (pairs + more) + rest;
      pairs := pairs + more;
      p := p + 1;
    }
  }
}
