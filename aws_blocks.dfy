/**
 * The Textract analysis result as the AWS tool reads it, and what `extract_data_from_result`
 * (aws/tool.py) makes of it, stated as functions.
 *
 * A block is a Python dictionary; every key the tool reads with `block["..."]` may be absent,
 * which raises `KeyError`, so every field is an `Option`. The walk stops at the first
 * `KeyError` and keeps what it collected before it.
 */
module AwsBlocks {
  import opened Wrappers

  /** One entry of a block's `Relationships` list. */
  datatype Relationship = Relationship(relType: Option<string>, ids: Option<seq<string>>)

  /** One entry of the response's `Blocks` list. */
  datatype Block = Block(
    id: Option<string>,
    blockType: Option<string>,
    text: Option<string>,
    entityTypes: Option<seq<string>>,
    relationships: Option<seq<Relationship>>,
    rowIndex: Option<int>,
    columnIndex: Option<int>)

  /** A key/value pair: the key's text and the text of its value, if one resolved. */
  datatype Pair = Pair(key: string, value: Option<string>)

  /** A table cell: `(RowIndex, ColumnIndex, Text)`. */
  datatype Cell = Cell(row: int, column: int, text: string)

  /** The three lists `extract_data_from_result` returns. */
  datatype Extraction = Extraction(lines: seq<string>, pairs: seq<Pair>, tables: seq<seq<Cell>>)

  /** The outcome of reading part of a block: a value, or a `KeyError`. */
  datatype Outcome<T> = Ok(value: T) | KeyError

  /** The key of a pair whose KEY block carries no `Text`. */
  const KeyNotFound := "Key not found"

  const NoExtraction := Extraction([], [], [])

  /** The result of `next((b for b in Blocks if b["Id"] == id), None)`. */
  datatype Lookup = Found(block: Block) | NotFound | IdMissing

  /** Every block in `all[i..j]` has an `Id`, and none of them is `id`. */
  predicate OtherIds(all: seq<Block>, id: string, i: nat, j: nat)
    requires j <= |all|
  {
    forall k :: i <= k < j ==> all[k].id.Some? && all[k].id != Some(id)
  }

  /**
   * Scans `all` from index `i` for the first block whose `Id` is `id`. A block without `Id`
   * met before a match raises `KeyError` (`IdMissing`).
   */
  function FindById(all: seq<Block>, id: string, i: nat): (r: Lookup)
    ensures r.Found? ==>
      exists j :: i <= j < |all| && all[j] == r.block && all[j].id == Some(id) && OtherIds(all, id, i, j)
    ensures r.NotFound? ==> OtherIds(all, id, i, |all|)
    ensures r.IdMissing? ==> exists j :: i <= j < |all| && all[j].id.None? && OtherIds(all, id, i, j)
    decreases |all| - i
  {
    if i >= |all| then NotFound
    else match all[i].id
      case None => IdMissing
      case Some(x) => if x == id then Found(all[i]) else FindById(all, id, i + 1)
  }

  /** The id resolves to a block that has `Text`. */
  predicate ResolvesToText(all: seq<Block>, id: string)
  {
    var l := FindById(all, id, 0);
    l.Found? && l.block.text.Some?
  }

  // ---------------------------------------------------------------- values of KEY blocks

  /** The inner loop over `relation["Ids"]`: each id whose block has `Text` replaces `value`. */
  function ValueFromIds(all: seq<Block>, ids: seq<string>, j: nat, value: Option<string>): Outcome<Option<string>>
    decreases |ids| - j
  {
    if j >= |ids| then Ok(value)
    else match FindById(all, ids[j], 0)
      case IdMissing => KeyError
      case NotFound => ValueFromIds(all, ids, j + 1, value)
      case Found(b) => ValueFromIds(all, ids, j + 1, if b.text.Some? then b.text else value)
  }

  /** The outer loop over `block["Relationships"]`, reading the ids of the `VALUE` relationships. */
  function ValueFromRelationships(all: seq<Block>, rels: seq<Relationship>, r: nat, value: Option<string>): Outcome<Option<string>>
    decreases |rels| - r
  {
    if r >= |rels| then Ok(value)
    else match rels[r].relType
      case None => KeyError
      case Some(t) =>
        if t != "VALUE" then ValueFromRelationships(all, rels, r + 1, value)
        else match rels[r].ids
          case None => KeyError
          case Some(ids) =>
            match ValueFromIds(all, ids, 0, value)
            case KeyError => KeyError
            case Ok(v) => ValueFromRelationships(all, rels, r + 1, v)
  }

  /**
   * The ids of the relationships of type `kind`, in order; `KeyError` when a relationship
   * has no `Type`, or one of that type has no `Ids`.
   */
  function RelatedIds(rels: seq<Relationship>, kind: string, r: nat): Outcome<seq<string>>
    decreases |rels| - r
  {
    if r >= |rels| then Ok([])
    else match rels[r].relType
      case None => KeyError
      case Some(t) =>
        if t != kind then RelatedIds(rels, kind, r + 1)
        else match rels[r].ids
          case None => KeyError
          case Some(ids) =>
            match RelatedIds(rels, kind, r + 1)
            case KeyError => KeyError
            case Ok(more) => Ok(ids + more)
  }

  // ---------------------------------------------------------------- cells of TABLE blocks

  /** The cell a CELL block contributes, with `Text` defaulting to the empty string. */
  function CellOf(b: Block): Cell
    requires b.rowIndex.Some? && b.columnIndex.Some?
  {
    Cell(b.rowIndex.value, b.columnIndex.value, b.text.GetOr(""))
  }

  /** The inner loop over `relationship["Ids"]`: ids that resolve to CELL blocks add a cell. */
  function CellsFromIds(all: seq<Block>, ids: seq<string>, j: nat, table: seq<Cell>): Outcome<seq<Cell>>
    decreases |ids| - j
  {
    if j >= |ids| then Ok(table)
    else match FindById(all, ids[j], 0)
      case IdMissing => KeyError
      case NotFound => CellsFromIds(all, ids, j + 1, table)
      case Found(b) =>
        match b.blockType
        case None => KeyError
        case Some(t) =>
          if t != "CELL" then CellsFromIds(all, ids, j + 1, table)
          else if b.rowIndex.None? || b.columnIndex.None? then KeyError
          else CellsFromIds(all, ids, j + 1, table + [CellOf(b)])
  }

  /** The outer loop over `block["Relationships"]`, reading the ids of the `CHILD` relationships. */
  function CellsFromRelationships(all: seq<Block>, rels: seq<Relationship>, r: nat, table: seq<Cell>): Outcome<seq<Cell>>
    decreases |rels| - r
  {
    if r >= |rels| then Ok(table)
    else match rels[r].relType
      case None => KeyError
      case Some(t) =>
        if t != "CHILD" then CellsFromRelationships(all, rels, r + 1, table)
        else match rels[r].ids
          case None => KeyError
          case Some(ids) =>
            match CellsFromIds(all, ids, 0, table)
            case KeyError => KeyError
            case Ok(cells) => CellsFromRelationships(all, rels, r + 1, cells)
  }

  // ---------------------------------------------------------------- the walk

  /** What one block adds to the three lists. */
  datatype Contribution = Nothing | LineText(text: string) | KeyValue(pair: Pair) | TableCells(cells: seq<Cell>)

  predicate IsKeyBlock(b: Block)
  {
    b.blockType == Some("KEY_VALUE_SET") && b.entityTypes.Some? && "KEY" in b.entityTypes.value
  }

  /** One iteration of the loop over `response["Blocks"]`, routed by `BlockType`. */
  function ProcessBlock(all: seq<Block>, b: Block): Outcome<Contribution>
  {
    match b.blockType
    case None => KeyError
    case Some(t) =>
      if t == "LINE" then
        Ok(if b.text.Some? then LineText(b.text.value) else Nothing)
      else if t == "KEY_VALUE_SET" && b.entityTypes.None? then
        KeyError
      else if t == "KEY_VALUE_SET" && "KEY" in b.entityTypes.value then
        var value := if b.relationships.Some? then ValueFromRelationships(all, b.relationships.value, 0, None) else Ok(None);
        match value
        case KeyError => KeyError
        case Ok(v) => Ok(KeyValue(Pair(b.text.GetOr(KeyNotFound), v)))
      else if t == "TABLE" then
        var cells := if b.relationships.Some? then CellsFromRelationships(all, b.relationships.value, 0, []) else Ok([]);
        match cells
        case KeyError => KeyError
        case Ok(c) => Ok(TableCells(c))
      else
        Ok(Nothing)
  }

  function Add(acc: Extraction, c: Contribution): Extraction
  {
    match c
    case Nothing => acc
    case LineText(s) => acc.(lines := acc.lines + [s])
    case KeyValue(p) => acc.(pairs := acc.pairs + [p])
    case TableCells(cells) => acc.(tables := acc.tables + [cells])
  }

  /** The loop from block `i` on, with `acc` collected so far; the first `KeyError` ends it. */
  function Walk(all: seq<Block>, i: nat, acc: Extraction): Extraction
    decreases |all| - i
  {
    if i >= |all| then acc
    else match ProcessBlock(all, all[i])
      case KeyError => acc
      case Ok(c) => Walk(all, i + 1, Add(acc, c))
  }

  function Extract(all: seq<Block>): Extraction
  {
    Walk(all, 0, NoExtraction)
  }

  /** A `get_document_analysis` response: its `JobStatus` and its `Blocks`. */
  datatype AnalysisResponse = AnalysisResponse(jobStatus: Option<string>, blocks: Option<seq<Block>>)

  /**
   * Without `Blocks`, the `KeyError` handler itself names the loop variable `block` before it
   * was ever bound, so an `UnboundLocalError` leaves `extract_data_from_result`.
   */
  datatype ExtractError = BlocksMissing

  function ExtractResponse(response: AnalysisResponse): Result<Extraction, ExtractError>
  {
    match response.blocks
    case None => Failure(BlocksMissing)
    case Some(all) => Success(Extract(all))
  }

  /**
   * Index of the first block from `i` on whose processing raises `KeyError`, or `|all|`:
   * the walk handles exactly the blocks before it.
   */
  function StopIndex(all: seq<Block>, i: nat): (k: nat)
    requires i <= |all|
    ensures i <= k <= |all|
    ensures forall j :: i <= j < k ==> ProcessBlock(all, all[j]).Ok?
    ensures k < |all| ==> ProcessBlock(all, all[k]).KeyError?
    decreases |all| - i
  {
    if i == |all| then i
    else if ProcessBlock(all, all[i]).KeyError? then i
    else StopIndex(all, i + 1)
  }

  // ---------------------------------------------------------------- reference views of the walk

  /** The text of every LINE block that has `Text`, in block order. */
  function LineTexts(bs: seq<Block>): seq<string>
  {
    if bs == [] then []
    else (if bs[0].blockType == Some("LINE") && bs[0].text.Some? then [bs[0].text.value] else [])
         + LineTexts(bs[1..])
  }

  /**
   * The value of a KEY block's pair as its `VALUE` relationships give it, `None` without
   * `Relationships`. Before the stop the relationship loops raise no `KeyError`, so the last
   * case does not arise there.
   */
  function KeyValueOf(all: seq<Block>, b: Block): Option<string>
  {
    if b.relationships.None? then None
    else match ValueFromRelationships(all, b.relationships.value, 0, None)
      case Ok(v) => v
      case KeyError => None
  }

  /** The pair of every KEY block, in block order: its `Text` or "Key not found", and its value. */
  function KeyPairs(all: seq<Block>, bs: seq<Block>): seq<Pair>
  {
    if bs == [] then []
    else (if IsKeyBlock(bs[0]) then [Pair(bs[0].text.GetOr(KeyNotFound), KeyValueOf(all, bs[0]))] else [])
         + KeyPairs(all, bs[1..])
  }

  /**
   * The cells of a TABLE block: those of its `CHILD` ids, empty without `Relationships`.
   * As for values, the `KeyError` case does not arise before the stop.
   */
  function TableCellsOf(all: seq<Block>, b: Block): seq<Cell>
  {
    if b.relationships.None? then []
    else match RelatedIds(b.relationships.value, "CHILD", 0)
      case Ok(ids) => CellsOfIds(all, ids)
      case KeyError => []
  }

  /** The table of every TABLE block, in block order. */
  function TablesOf(all: seq<Block>, bs: seq<Block>): seq<seq<Cell>>
  {
    if bs == [] then []
    else (if bs[0].blockType == Some("TABLE") then [TableCellsOf(all, bs[0])] else []) + TablesOf(all, bs[1..])
  }

  /** Splitting off the first block of a slice. */
  lemma SliceHead(all: seq<Block>, i: nat, k: nat)
    requires i < k <= |all|
    ensures all[i..k][0] == all[i] && all[i..k][1..] == all[i + 1..k]
  {
  }

  /**
   * The lines are exactly the texts of the LINE blocks that have `Text`, among the blocks before
   * the first one that raises `KeyError`; a LINE block without `Text` adds nothing.
   */
  lemma {:induction false} WalkLines(all: seq<Block>, i: nat, acc: Extraction)
    requires i <= |all|
    ensures Walk(all, i, acc).lines == acc.lines + LineTexts(all[i..StopIndex(all, i)])
    decreases |all| - i
  {
    var k := StopIndex(all, i);
    if i < |all| && ProcessBlock(all, all[i]).Ok? {
      var c := ProcessBlock(all, all[i]).value;
      WalkLines(all, i + 1, Add(acc, c));
      SliceHead(all, i, k);
    }
  }

  lemma ExtractedLines(all: seq<Block>)
    ensures Extract(all).lines == LineTexts(all[..StopIndex(all, 0)])
  {
    WalkLines(all, 0, NoExtraction);
    assert all[0..StopIndex(all, 0)] == all[..StopIndex(all, 0)];
  }

  /**
   * Every KEY block before the stop yields exactly one pair, in block order, keyed by its `Text`
   * or by "Key not found", with the value its `VALUE` relationships give.
   */
  lemma {:induction false} WalkPairs(all: seq<Block>, i: nat, acc: Extraction)
    requires i <= |all|
    ensures Walk(all, i, acc).pairs == acc.pairs + KeyPairs(all, all[i..StopIndex(all, i)])
    decreases |all| - i
  {
    var k := StopIndex(all, i);
    if i < |all| && ProcessBlock(all, all[i]).Ok? {
      var c := ProcessBlock(all, all[i]).value;
      WalkPairs(all, i + 1, Add(acc, c));
      SliceHead(all, i, k);
      var rest := KeyPairs(all, all[i + 1..k]);
      if IsKeyBlock(all[i]) {
        var p := Pair(all[i].text.GetOr(KeyNotFound), KeyValueOf(all, all[i]));
        assert c == KeyValue(p);
        assert KeyPairs(all, all[i..k]) == [p] + rest;
        assert acc.pairs + [p] + rest == acc.pairs + ([p] + rest);
      } else {
        assert !c.KeyValue?;
        assert KeyPairs(all, all[i..k]) == rest;
      }
    }
  }

  lemma ExtractedPairs(all: seq<Block>)
    ensures Extract(all).pairs == KeyPairs(all, all[..StopIndex(all, 0)])
  {
    WalkPairs(all, 0, NoExtraction);
    assert all[0..StopIndex(all, 0)] == all[..StopIndex(all, 0)];
  }

  /**
   * Every TABLE block before the stop yields exactly one table, in block order, holding the
   * cells of its `CHILD` ids.
   */
  lemma {:induction false} WalkTables(all: seq<Block>, i: nat, acc: Extraction)
    requires i <= |all|
    ensures Walk(all, i, acc).tables == acc.tables + TablesOf(all, all[i..StopIndex(all, i)])
    decreases |all| - i
  {
    var k := StopIndex(all, i);
    if i < |all| && ProcessBlock(all, all[i]).Ok? {
      var c := ProcessBlock(all, all[i]).value;
      WalkTables(all, i + 1, Add(acc, c));
      SliceHead(all, i, k);
      var rest := TablesOf(all, all[i + 1..k]);
      if all[i].blockType == Some("TABLE") {
        if all[i].relationships.Some? {
          TableCellsAreChildCells(all, all[i].relationships.value);
        }
        var t := TableCellsOf(all, all[i]);
        assert c == TableCells(t);
        assert TablesOf(all, all[i..k]) == [t] + rest;
        assert acc.tables + [t] + rest == acc.tables + ([t] + rest);
      } else {
        assert !c.TableCells?;
        assert TablesOf(all, all[i..k]) == rest;
      }
    }
  }

  lemma ExtractedTables(all: seq<Block>)
    ensures Extract(all).tables == TablesOf(all, all[..StopIndex(all, 0)])
  {
    WalkTables(all, 0, NoExtraction);
    assert all[0..StopIndex(all, 0)] == all[..StopIndex(all, 0)];
  }

  // ---------------------------------------------------------------- values: the last resolved text wins

  /** No id in `ids[j..]` resolves to a block that has `Text`. */
  predicate NoneResolveFrom(all: seq<Block>, ids: seq<string>, j: nat)
  {
    forall k :: j <= k < |ids| ==> !ResolvesToText(all, ids[k])
  }

  lemma {:induction false} ValueFromIdsShift(all: seq<Block>, a: seq<string>, b: seq<string>, j: nat, v: Option<string>)
    requires j <= |b|
    ensures ValueFromIds(all, a + b, |a| + j, v) == ValueFromIds(all, b, j, v)
    decreases |b| - j
  {
    if j < |b| {
      assert (a + b)[|a| + j] == b[j];
      match FindById(all, b[j], 0)
      case IdMissing =>
      case NotFound => ValueFromIdsShift(all, a, b, j + 1, v);
      case Found(blk) => ValueFromIdsShift(all, a, b, j + 1, if blk.text.Some? then blk.text else v);
    }
  }

  /** Reading the ids of `a + b` is reading those of `a`, then those of `b` from where `a` left off. */
  lemma {:induction false} ValueFromIdsAppend(all: seq<Block>, a: seq<string>, b: seq<string>, j: nat, v: Option<string>)
    requires j <= |a|
    ensures ValueFromIds(all, a + b, j, v) ==
      match ValueFromIds(all, a, j, v)
      case KeyError => KeyError
      case Ok(w) => ValueFromIds(all, b, 0, w)
    decreases |a| - j
  {
    if j < |a| {
      assert (a + b)[j] == a[j];
      match FindById(all, a[j], 0)
      case IdMissing =>
      case NotFound => ValueFromIdsAppend(all, a, b, j + 1, v);
      case Found(blk) => ValueFromIdsAppend(all, a, b, j + 1, if blk.text.Some? then blk.text else v);
    } else {
      ValueFromIdsShift(all, a, b, 0, v);
    }
  }

  /** The nested relationship/id loops read the ids of all `VALUE` relationships as one list. */
  lemma {:induction false} ValueViaRelatedIds(all: seq<Block>, rels: seq<Relationship>, r: nat, v: Option<string>)
    requires r <= |rels|
    ensures ValueFromRelationships(all, rels, r, v) ==
      match RelatedIds(rels, "VALUE", r)
      case KeyError => KeyError
      case Ok(ids) => ValueFromIds(all, ids, 0, v)
    decreases |rels| - r
  {
    if r < |rels| && rels[r].relType.Some? {
      if rels[r].relType.value != "VALUE" {
        ValueViaRelatedIds(all, rels, r + 1, v);
      } else if rels[r].ids.Some? {
        var ids := rels[r].ids.value;
        match ValueFromIds(all, ids, 0, v)
        case KeyError =>
          if RelatedIds(rels, "VALUE", r + 1).Ok? {
            ValueFromIdsAppend(all, ids, RelatedIds(rels, "VALUE", r + 1).value, 0, v);
          }
        case Ok(w) =>
          ValueViaRelatedIds(all, rels, r + 1, w);
          if RelatedIds(rels, "VALUE", r + 1).Ok? {
            ValueFromIdsAppend(all, ids, RelatedIds(rels, "VALUE", r + 1).value, 0, v);
          }
      }
    }
  }

  /**
   * Reading `ids[j..]` starting from `v` keeps `v` when no id resolves to a block with `Text`;
   * otherwise it ends with the `Text` of the last id that does.
   */
  lemma {:induction false} ValueIsLastResolved(all: seq<Block>, ids: seq<string>, j: nat, v: Option<string>)
    requires ValueFromIds(all, ids, j, v).Ok?
    ensures NoneResolveFrom(all, ids, j) ==> ValueFromIds(all, ids, j, v).value == v
    ensures !NoneResolveFrom(all, ids, j) ==>
      exists k :: j <= k < |ids| && ResolvesToText(all, ids[k]) && NoneResolveFrom(all, ids, k + 1)
                  && ValueFromIds(all, ids, j, v).value == FindById(all, ids[k], 0).block.text
    decreases |ids| - j
  {
    if j < |ids| {
      var w := ValueFromIds(all, ids, j, v).value;
      match FindById(all, ids[j], 0)
      case NotFound =>
        ValueIsLastResolved(all, ids, j + 1, v);
        assert !ResolvesToText(all, ids[j]);
      case Found(b) =>
        var v' := if b.text.Some? then b.text else v;
        ValueIsLastResolved(all, ids, j + 1, v');
        if b.text.Some? && NoneResolveFrom(all, ids, j + 1) {
          assert ResolvesToText(all, ids[j]);
        }
    }
  }

  /**
   * The value of a KEY block's pair is None exactly when no id of its `VALUE` relationships
   * resolves (through the first block with that id) to a block with `Text`; otherwise it is
   * the `Text` of the last id that does.
   */
  lemma PairValueIsLastResolvedText(all: seq<Block>, rels: seq<Relationship>)
    requires ValueFromRelationships(all, rels, 0, None).Ok?
    ensures RelatedIds(rels, "VALUE", 0).Ok?
    ensures var ids := RelatedIds(rels, "VALUE", 0).value;
            var w := ValueFromRelationships(all, rels, 0, None).value;
            (w.None? <==> NoneResolveFrom(all, ids, 0))
            && (w.Some? ==> exists k :: 0 <= k < |ids| && ResolvesToText(all, ids[k]) && NoneResolveFrom(all, ids, k + 1)
                                        && w == FindById(all, ids[k], 0).block.text)
  {
    ValueViaRelatedIds(all, rels, 0, None);
    var ids := RelatedIds(rels, "VALUE", 0).value;
    ValueIsLastResolved(all, ids, 0, None);
  }

  // ---------------------------------------------------------------- cells: the CELL blocks of the ids, in order

  /** `id` resolves to a CELL block that has both indices: such an id adds a cell. */
  predicate IsCellId(all: seq<Block>, id: string)
  {
    var l := FindById(all, id, 0);
    l.Found? && l.block.blockType == Some("CELL") && l.block.rowIndex.Some? && l.block.columnIndex.Some?
  }

  /**
   * Handling `id` raises `KeyError`: a block without `Id` comes before its match, the block
   * found has no `BlockType`, or it is a CELL without `RowIndex` or `ColumnIndex`.
   */
  predicate CellIdRaises(all: seq<Block>, id: string)
  {
    var l := FindById(all, id, 0);
    l.IdMissing?
    || (l.Found? && (l.block.blockType.None?
                     || (l.block.blockType == Some("CELL") && (l.block.rowIndex.None? || l.block.columnIndex.None?))))
  }

  /** The cell of every id that resolves to a CELL block, in id order. */
  function CellsOfIds(all: seq<Block>, ids: seq<string>): seq<Cell>
  {
    if ids == [] then []
    else (if IsCellId(all, ids[0]) then [CellOf(FindById(all, ids[0], 0).block)] else []) + CellsOfIds(all, ids[1..])
  }

  lemma {:induction false} CellsFromIdsShift(all: seq<Block>, a: seq<string>, b: seq<string>, j: nat, t: seq<Cell>)
    requires j <= |b|
    ensures CellsFromIds(all, a + b, |a| + j, t) == CellsFromIds(all, b, j, t)
    decreases |b| - j
  {
    if j < |b| {
      assert (a + b)[|a| + j] == b[j];
      var l := FindById(all, b[j], 0);
      if l.Found? && l.block.blockType.Some? {
        var blk := l.block;
        if blk.blockType.value != "CELL" {
          CellsFromIdsShift(all, a, b, j + 1, t);
        } else if blk.rowIndex.Some? && blk.columnIndex.Some? {
          CellsFromIdsShift(all, a, b, j + 1, t + [CellOf(blk)]);
        }
      } else if l.NotFound? {
        CellsFromIdsShift(all, a, b, j + 1, t);
      }
    }
  }

  lemma {:induction false} CellsFromIdsAppend(all: seq<Block>, a: seq<string>, b: seq<string>, j: nat, t: seq<Cell>)
    requires j <= |a|
    ensures CellsFromIds(all, a + b, j, t) ==
      match CellsFromIds(all, a, j, t)
      case KeyError => KeyError
      case Ok(u) => CellsFromIds(all, b, 0, u)
    decreases |a| - j
  {
    if j < |a| {
      assert (a + b)[j] == a[j];
      var l := FindById(all, a[j], 0);
      if l.Found? && l.block.blockType.Some? {
        var blk := l.block;
        if blk.blockType.value != "CELL" {
          CellsFromIdsAppend(all, a, b, j + 1, t);
        } else if blk.rowIndex.Some? && blk.columnIndex.Some? {
          CellsFromIdsAppend(all, a, b, j + 1, t + [CellOf(blk)]);
        }
      } else if l.NotFound? {
        CellsFromIdsAppend(all, a, b, j + 1, t);
      }
    } else {
      CellsFromIdsShift(all, a, b, 0, t);
    }
  }

  /** The nested relationship/id loops read the ids of all `CHILD` relationships as one list. */
  lemma {:induction false} CellsViaRelatedIds(all: seq<Block>, rels: seq<Relationship>, r: nat, t: seq<Cell>)
    requires r <= |rels|
    ensures CellsFromRelationships(all, rels, r, t) ==
      match RelatedIds(rels, "CHILD", r)
      case KeyError => KeyError
      case Ok(ids) => CellsFromIds(all, ids, 0, t)
    decreases |rels| - r
  {
    if r < |rels| && rels[r].relType.Some? {
      if rels[r].relType.value != "CHILD" {
        CellsViaRelatedIds(all, rels, r + 1, t);
      } else if rels[r].ids.Some? {
        var ids := rels[r].ids.value;
        match CellsFromIds(all, ids, 0, t)
        case KeyError =>
          if RelatedIds(rels, "CHILD", r + 1).Ok? {
            CellsFromIdsAppend(all, ids, RelatedIds(rels, "CHILD", r + 1).value, 0, t);
          }
        case Ok(u) =>
          CellsViaRelatedIds(all, rels, r + 1, u);
          if RelatedIds(rels, "CHILD", r + 1).Ok? {
            CellsFromIdsAppend(all, ids, RelatedIds(rels, "CHILD", r + 1).value, 0, t);
          }
      }
    }
  }

  /**
   * Reading `ids[j..]` raises `KeyError` exactly when one of those ids does; otherwise it
   * appends to the cells collected so far the cell of every id that resolves to a CELL block,
   * in id order.
   */
  lemma {:induction false} CellsFromIdsExact(all: seq<Block>, ids: seq<string>, j: nat, t: seq<Cell>)
    requires j <= |ids|
    ensures CellsFromIds(all, ids, j, t).KeyError? <==> exists k :: j <= k < |ids| && CellIdRaises(all, ids[k])
    ensures CellsFromIds(all, ids, j, t).Ok? ==> CellsFromIds(all, ids, j, t).value == t + CellsOfIds(all, ids[j..])
    decreases |ids| - j
  {
    if j < |ids| {
      assert ids[j..][0] == ids[j] && ids[j..][1..] == ids[j + 1..];
      if IsCellId(all, ids[j]) {
        var c := CellOf(FindById(all, ids[j], 0).block);
        CellsFromIdsExact(all, ids, j + 1, t + [c]);
        assert t + [c] + CellsOfIds(all, ids[j + 1..]) == t + ([c] + CellsOfIds(all, ids[j + 1..]));
      } else {
        CellsFromIdsExact(all, ids, j + 1, t);
      }
    } else {
      assert ids[j..] == [];
    }
  }

  /**
   * A TABLE block's cell loops raise `KeyError` exactly when its relationships do or one of its
   * `CHILD` ids does; otherwise the table holds the cell `(RowIndex, ColumnIndex, Text or "")`
   * of every `CHILD` id that resolves to a CELL block, in id order, and nothing else.
   */
  lemma TableCellsAreChildCells(all: seq<Block>, rels: seq<Relationship>)
    ensures var c := CellsFromRelationships(all, rels, 0, []);
            var ids := RelatedIds(rels, "CHILD", 0);
            (c.KeyError? <==> ids.KeyError? || exists k :: 0 <= k < |ids.value| && CellIdRaises(all, ids.value[k]))
            && (c.Ok? ==> ids.Ok? && c.value == CellsOfIds(all, ids.value))
  {
    CellsViaRelatedIds(all, rels, 0, []);
    if RelatedIds(rels, "CHILD", 0).Ok? {
      var ids := RelatedIds(rels, "CHILD", 0).value;
      CellsFromIdsExact(all, ids, 0, []);
      assert ids[0..] == ids;
    }
  }
}
