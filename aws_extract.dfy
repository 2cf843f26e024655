/**
 * `extract_data_from_result` (aws/tool.py) as the loops it is: three lists appended to while
 * walking the blocks, with the value and table lookups as nested loops. Each method is proved
 * equal to the function of the same walk in AwsBlocks.
 */
module AwsExtract {
  import opened Wrappers
  import opened AwsBlocks

  /** The relationship loop of a KEY block: the last VALUE id resolving to a block with `Text` wins. */
  method ResolveValue(all: seq<Block>, rels: seq<Relationship>) returns (o: Outcome<Option<string>>)
    ensures o == ValueFromRelationships(all, rels, 0, None)
  {
    var value: Option<string> := None;
    var r := 0;
    while r < |rels|
      invariant r <= |rels|
      invariant ValueFromRelationships(all, rels, 0, None) == ValueFromRelationships(all, rels, r, value)
    {
      var relation := rels[r];
      if relation.relType.None? {
        return KeyError;
      }
      if relation.relType.value == "VALUE" {
        if relation.ids.None? {
          return KeyError;
        }
        var ids := relation.ids.value;
        ghost var before := value;
        var j := 0;
        while j < |ids|
          invariant j <= |ids|
          invariant ValueFromIds(all, ids, 0, before) == ValueFromIds(all, ids, j, value)
        {
          var valueBlock := FindById(all, ids[j], 0);
          if valueBlock.IdMissing? {
            return KeyError;
          }
          if valueBlock.Found? && valueBlock.block.text.Some? {
            value := valueBlock.block.text;
          }
          j := j + 1;
        }
      }
      r := r + 1;
    }
    return Ok(value);
  }

  /** The relationship loop of a TABLE block: CHILD ids resolving to CELL blocks give cells. */
  method CollectCells(all: seq<Block>, rels: seq<Relationship>) returns (o: Outcome<seq<Cell>>)
    ensures o == CellsFromRelationships(all, rels, 0, [])
  {
    var table: seq<Cell> := [];
    var r := 0;
    while r < |rels|
      invariant r <= |rels|
      invariant CellsFromRelationships(all, rels, 0, []) == CellsFromRelationships(all, rels, r, table)
    {
      var relationship := rels[r];
      if relationship.relType.None? {
        return KeyError;
      }
      if relationship.relType.value == "CHILD" {
        if relationship.ids.None? {
          return KeyError;
        }
        var ids := relationship.ids.value;
        ghost var before := table;
        var j := 0;
        while j < |ids|
          invariant j <= |ids|
          invariant CellsFromIds(all, ids, 0, before) == CellsFromIds(all, ids, j, table)
        {
          var cellBlock := FindById(all, ids[j], 0);
          if cellBlock.IdMissing? {
            return KeyError;
          }
          if cellBlock.Found? {
            var b := cellBlock.block;
            if b.blockType.None? {
              return KeyError;
            }
            if b.blockType.value == "CELL" {
              if b.rowIndex.None? || b.columnIndex.None? {
                return KeyError;
              }
              table := table + [CellOf(b)];
            }
          }
          j := j + 1;
        }
      }
      r := r + 1;
    }
    return Ok(table);
  }

  /**
   * Walks the blocks in order, routing each by `BlockType`; the first `KeyError` ends the walk
   * and the lists collected so far are returned.
   */
  method ExtractDataFromResult(response: AnalysisResponse) returns (r: Result<Extraction, ExtractError>)
    ensures r == ExtractResponse(response)
  {
    if response.blocks.None? {
      return Failure(BlocksMissing);
    }
    var all := response.blocks.value;
    var extractedText: seq<string> := [];
    var keyValuePairs: seq<Pair> := [];
    var tables: seq<seq<Cell>> := [];
    var i := 0;
    while i < |all|
      invariant i <= |all|
      invariant Extract(all) == Walk(all, i, Extraction(extractedText, keyValuePairs, tables))
    {
      var block := all[i];
      if block.blockType.None? {
        break;
      }
      var blockType := block.blockType.value;
      if blockType == "LINE" {
        if block.text.Some? {
          extractedText := extractedText + [block.text.value];
        }
      } else if blockType == "KEY_VALUE_SET" && block.entityTypes.None? {
        break;
      } else if blockType == "KEY_VALUE_SET" && "KEY" in block.entityTypes.value {
        var key := block.text.GetOr(KeyNotFound);
        var value: Option<string> := None;
        if block.relationships.Some? {
          var found := ResolveValue(all, block.relationships.value);
          if found.KeyError? {
            break;
          }
          value := found.value;
        }
        keyValuePairs := keyValuePairs + [Pair(key, value)];
      } else if blockType == "TABLE" {
        var table: seq<Cell> := [];
        if block.relationships.Some? {
          var cells := CollectCells(all, block.relationships.value);
          if cells.KeyError? {
            break;
          }
          table := cells.value;
        }
        tables := tables + [table];
      }
      i := i + 1;
    }
    return Success(Extraction(extractedText, keyValuePairs, tables));
  }
}
