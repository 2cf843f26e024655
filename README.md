# pdf-tool: the document-analysis core, modelled in Dafny

pdf-tool has four command-line tools. Each sends a PDF, or its pages, to a cloud
document-analysis service and prints what comes back. This project models three of them:

- the AWS tool (`aws/tool.py`) uses Textract on an S3 object;
- the Google tool (`google/tool.py`) uses Google Vision document text detection;
- the Azure tool (`azure/tool.py`) uses the Azure Computer Vision Read API.

This project models the deterministic part of each tool: how the service's answer is read, the
loops that poll for it, the key/value heuristics, the parsing of the settings, and the order of
the checks in each `main`. It then proves what those parts guarantee. The services themselves are
parameters.

**AWS tool** (modules `AwsBlocks`, `AwsExtract`, `AwsMain`):
- A Textract block is a dictionary whose keys may be missing. Every field is an `Option`, and
  a missing key is a `KeyError`.
- `extract_data_from_result` is a walk over the blocks that stops at the first block whose
  processing raises `KeyError`, keeping what it collected before it.
- The model also covers the id lookups (`next(...)`, which itself raises `KeyError` on a block
  without `Id`), the poll loop's stop rule, the `S3_URI` parsing, and the filters applied when
  printing.

**Google tool** (modules `GoogleVision`, `GoogleExtract`, `GoogleMain`):
- Vision messages are protocol-buffer objects whose truth value is "some field is set".
- The model covers the block texts, the key-word/value-box heuristic of `find_key_value_pairs`,
  the crop rectangle of a value box, `extract_handwritten_responses`, the `KEY_WORDS` parsing,
  and `main`.

**Azure tool** (module `AzureRead`):
- The operation id taken from the `Operation-Location` header.
- The poll loop over `get_read_result`.
- The flattening of the results into line texts.
- `main`'s configuration checks and page loop.

`Wrappers`, `Seqs` and `Text` hold what the three modelled tools share:
- `Option` and `Result`;
- the substring relation and the search that decides it;
- Python's `strip`, `split`, `join` and `split(sep)[-1]` on strings.

Where the code and its documentation disagree, the model follows the code:
- When a Textract response has no `Blocks`, `extract_data_from_result` does not return empty
  lists. Its `KeyError` handler names the loop variable `block`, which was never bound. The
  resulting `UnboundLocalError` leaves the function, and `main` reports it as an error.
  `AwsBlocks.ExtractResponse` returns `Failure(BlocksMissing)` for it.
- Python's `if text_annotation` treats an annotation with no pages and no text as false. Such an
  annotation is reported as "no text detected". The model proves that
  `text_annotation.text if text_annotation else ""` is always the annotation's text.

## Model

| member | source | states |
|---|---|---|
| AwsBlocks.FindById | aws/tool.py:56-63 | the lookup finds the first block whose `Id` matches, with every earlier block having another `Id`; it is `NotFound` only when every block has an `Id` and none matches; it is `IdMissing` (a `KeyError`) exactly at a block without `Id` met before any match |
| AwsBlocks.StopIndex | aws/tool.py:40-92 | the walk handles exactly the blocks before the first one whose processing raises `KeyError` |
| AwsBlocks.ExtractedLines | aws/tool.py:41-46 | the extracted text is exactly the `Text` of every LINE block that has one, in block order, among the blocks before the stop |
| AwsBlocks.WalkLines | aws/tool.py:41-46 | the same, for the walk from any block and any lists collected so far |
| AwsBlocks.ExtractedPairs | aws/tool.py:47-66 | the pairs are exactly one per KEY block before the stop, in block order: its `Text` or "Key not found", with the value its `VALUE` relationships give |
| AwsBlocks.WalkPairs | aws/tool.py:47-66 | the same, for the walk from any block and any lists collected so far |
| AwsBlocks.ExtractedTables | aws/tool.py:67-90 | the tables are exactly one per TABLE block before the stop, in block order, each holding the cells of its `CHILD` ids |
| AwsBlocks.WalkTables | aws/tool.py:67-90 | the same, for the walk from any block and any lists collected so far |
| AwsBlocks.ValueIsLastResolved | aws/tool.py:55-65 | over a list of value ids, the value becomes the `Text` of the last id that resolves to a block with `Text`, and is unchanged when none does |
| AwsBlocks.ValueViaRelatedIds | aws/tool.py:52-65 | reading the values relationship by relationship equals reading all `VALUE` ids in order |
| AwsBlocks.PairValueIsLastResolvedText | aws/tool.py:51-66 | a pair's value is `None` exactly when no `VALUE` id resolves to a block with `Text`; otherwise it is the `Text` of the last id that does |
| AwsBlocks.CellsViaRelatedIds | aws/tool.py:69-89 | collecting cells relationship by relationship equals collecting them over all `CHILD` ids in order |
| AwsBlocks.CellsFromIdsExact | aws/tool.py:72-89 | the id loop raises `KeyError` exactly when one of its ids does (a block without `Id` met first, a found block without `BlockType`, a CELL without `RowIndex` or `ColumnIndex`); otherwise it appends the `(RowIndex, ColumnIndex, Text or "")` of every id that resolves to a CELL block, in id order, and nothing else |
| AwsBlocks.TableCellsAreChildCells | aws/tool.py:67-90 | a table's loops raise `KeyError` exactly when a relationship lacks `Type`, a `CHILD` one lacks `Ids`, or a `CHILD` id raises; otherwise the table is the cell of every `CHILD` id that resolves to a CELL block, in id order |
| AwsExtract.ResolveValue | aws/tool.py:51-65 | the nested loops over relationships and ids compute the pair's value as specified, `KeyError` included |
| AwsExtract.CollectCells | aws/tool.py:68-89 | the nested loops over relationships and ids compute the table as specified, `KeyError` included |
| AwsExtract.ExtractDataFromResult | aws/tool.py:34-96 | the loop over the blocks returns the three lists of the specified walk, stopping at the first `KeyError`, and fails when `Blocks` is missing |
| AwsMain.ParseS3Uri | aws/tool.py:100-114 | an unset or empty URI is rejected first, then one without "s3://", then one with no "/" after it; otherwise the URI is "s3://" + bucket + "/" + name, with no "/" in the bucket |
| AwsMain.ParseS3UriRoundTrip | aws/tool.py:107-114 | a bucket without "/" and any object name, written as an S3 URI, parse back to themselves |
| AwsMain.Verdict | aws/tool.py:23-31 | the response that ends polling gives the response itself when SUCCEEDED, the failure message when FAILED, and a `KeyError` when its status is missing |
| AwsMain.PollStop | aws/tool.py:21-26 | polling ends at the first response whose status is SUCCEEDED, FAILED or missing |
| AwsMain.JobOutcomeOf | aws/tool.py:21-31 | the job's outcome is decided by the first response whose status is SUCCEEDED, FAILED or missing; if there is none, the loop would poll on (as it does for any other status, `PARTIAL_SUCCESS` included) |
| AwsMain.SendPdfToTextract | aws/tool.py:21-31 | the poll loop returns that outcome after exactly as many requests as it takes to reach the deciding response |
| AwsMain.ShownPairs | aws/tool.py:123-125 | a pair is printed exactly when its key is not the string "Key not found" (so a KEY block whose `Text` is that string is hidden too) and its value is not `None` |
| AwsMain.NonEmptyCells | aws/tool.py:129-131 | a cell of a table is printed exactly when its content is non-empty |
| AwsMain.ShownCells | aws/tool.py:128-131 | a cell is printed exactly when it belongs to some table and its content is non-empty |
| AwsMain.RunAws | aws/tool.py:99-136 | a URI that does not parse starts no job and is reported; otherwise the job runs on the parsed bucket and name, and the run reports its outcome: failure message, missing status, missing blocks, or the printed text, pairs and cells |
| GoogleVision.WordTextInBlockText | google/tool.py:63-79 | the text of every word occurs in the text of its block |
| GoogleVision.ScanWordsTakesFirstValueWord | google/tool.py:75-84 | the word loop takes its value box from the first non-key word met with the key armed (first in the paragraph when it starts armed, otherwise right after a key word whose box has vertices), holding the box of the last key word before it; without such a word it keeps its value box and holds the box of the paragraph's last key word, or the one it started with |
| GoogleVision.ScanParagraphsStep | google/tool.py:73-88 | a paragraph emits exactly one pair, with the box of that first value word, when the word exists and its box has vertices, and the next paragraph starts disarmed; otherwise it emits nothing and the next paragraph starts with the key box it ended with, still armed if a value word without vertices was met |
| GoogleVision.ScanWordsValue | google/tool.py:75-84 | the word loop either takes its value box from a non-key word that comes right after a key word whose box has vertices (or first, if the loop started armed), with the key armed, or meets no such word and keeps the value box it started with; so a value box with vertices comes with an armed key |
| GoogleVision.ScanParagraphsPairs | google/tool.py:73-88 | every pair has the key word as key and a box with vertices, taken from such a value word; a paragraph's first word is taken only in a later paragraph than the one the loop starts at, or when it starts armed |
| GoogleVision.AtMostOnePairPerParagraph | google/tool.py:73-88 | from any state, the pairs are numbered by strictly rising paragraph indices: pair k has the key word and a box with vertices, and after it the loop restarts disarmed at the paragraph after its own; so each paragraph emits at most one pair, and there are no more pairs than paragraphs |
| GoogleVision.PairsByParagraph | google/tool.py:73-88 | entered without a value box, the paragraph loop emits at most one pair per paragraph, in paragraph order, and each pair's box is that of a value word of the very paragraph it is emitted after; that paragraph's first word counts only after the starting paragraph or from an armed start |
| GoogleVision.BlockKeywordPairsShape | google/tool.py:72-88 | within a block, a key word gives no more pairs than paragraphs, at most one per paragraph and in paragraph order, each holding the box of a value word of the paragraph it is emitted after; the first word of a paragraph is used only after the first paragraph |
| GoogleVision.ScanWordsWithoutKeyword | google/tool.py:75-84 | without any word equal to the key word, the word loop leaves a disarmed state unchanged |
| GoogleVision.ScanParagraphsWithoutKeyword | google/tool.py:75-88 | without any word equal to the key word, no pair is found |
| Seqs.ContainsIsSubstring | google/tool.py:72 | the search behind `key_word in block_text` succeeds exactly when the key word occurs as a contiguous part of the text |
| GoogleVision.SubstringGuardIsRedundant | google/tool.py:72 | the `key_word in block_text` test changes nothing: the paragraph loop alone gives the same pairs |
| GoogleVision.KeywordsPairsKeys | google/tool.py:71-88 | every pair of a block is keyed by one of the key words, which occurs in the block's text, and has a box with vertices |
| GoogleVision.AnnotationPairsKeys | google/tool.py:57-89 | every pair is keyed by one of the key words, which occurs in the text of some block of the annotation, and has a box with vertices |
| GoogleVision.NoKeyWordsNoPairs | google/tool.py:57-89 | without key words there are no pairs |
| GoogleVision.AnnotationTextsLength | google/tool.py:40-54 | the extracted texts have one entry per block |
| GoogleVision.AnnotationTextAt | google/tool.py:40-54 | block `b` of page `p` has its text at the position after the blocks of the earlier pages |
| GoogleExtract.ExtractTextAnnotations | google/tool.py:40-54 | the loop returns the text of every block, page by page and block by block, one entry per block |
| GoogleExtract.ScanParagraph | google/tool.py:76-84 | the word loop, with its `break`, computes the specified state |
| GoogleExtract.ScanBlock | google/tool.py:73-88 | the paragraph loop from a disarmed state computes the specified pairs |
| GoogleExtract.BlockPairs | google/tool.py:63-88 | the key-word loop of one block computes the specified pairs |
| GoogleExtract.PagePairs | google/tool.py:62-88 | the block loop of one page computes the specified pairs |
| GoogleExtract.FindKeyValuePairs | google/tool.py:57-89 | the loop over pages, blocks and key words computes the specified pairs, in that order |
| GoogleMain.KeyWordsFrom | google/tool.py:137 | every key word is a non-empty, stripped piece |
| GoogleMain.ParseKeyWords | google/tool.py:136-137 | every key word is non-empty, has no surrounding whitespace, and is a stripped piece of the setting split on commas |
| GoogleMain.ParseKeepsEveryKeyWord | google/tool.py:137 | every piece that is not blank gives a key word |
| GoogleMain.KeyWordsHaveNoComma | google/tool.py:137 | no key word contains a comma |
| GoogleMain.UnsetKeyWords | google/tool.py:136-137 | an unset `KEY_WORDS` gives no key words |
| GoogleMain.KeyWordsFromAppend | google/tool.py:137 | the key words of two lists of pieces are those of the first followed by those of the second |
| GoogleMain.ParseKeyWordsInOrder | google/tool.py:137 | the key words of a setting with a comma are those of the text before it followed by those of the text after it, and text without a comma gives its stripped text unless that is empty; so the key words are the non-empty stripped pieces in comma order |
| GoogleMain.KeyWordsRoundTrip | google/tool.py:137 | comma-separated key words, each non-empty, stripped and comma-free, are read back unchanged |
| GoogleMain.Lowest | google/tool.py:97-98 | the minimum is the coordinate of some vertex and at most that of every vertex |
| GoogleMain.Highest | google/tool.py:99-100 | the maximum is the coordinate of some vertex and at least that of every vertex |
| GoogleMain.BoxCrop | google/tool.py:96-102 | the crop is the smallest rectangle holding every vertex: each of its edges touches a vertex |
| GoogleMain.ResponseText | google/tool.py:107 | the response text is always the annotation's text, because a false annotation has none |
| GoogleMain.ExtractHandwrittenResponses | google/tool.py:92-108 | it fails exactly when some box has no vertices (`min` of nothing), at the first such pair; otherwise it gives one response per pair, in order, with the pair's key and the text recognised in the crop of its box |
| GoogleMain.FoundBoxesHaveVertices | google/tool.py:85-86 | every pair that `find_key_value_pairs` finds has a box with vertices, so, with a box true exactly when it has vertices, `extract_handwritten_responses` never fails on those pairs |
| GoogleMain.AnalyzePage | google/tool.py:150-170 | a false annotation reports no text; otherwise the page reports its block texts, its pairs, and one response per pair |
| GoogleMain.AnalyzePages | google/tool.py:147-170 | every page is reported, in order |
| GoogleMain.RunGoogle | google/tool.py:134-170 | an unset or empty `FILE_PATH` ends the run before any client is built; otherwise every page is reported, in order, with the parsed key words |
| Text.Strip | google/tool.py:137 | the result has no surrounding whitespace and is a slice of the input, with only whitespace around it |
| Text.StripIdempotent | google/tool.py:137 | stripping twice is the same as stripping once |
| Text.StripAddsNothing | google/tool.py:137 | stripping adds no character that was not in the input |
| Text.Split | google/tool.py:137 | the pieces contain no separator and, joined with it, give the input back |
| Text.SplitAppend | google/tool.py:137 | splitting `a + sep + b` gives the pieces of `a` followed by those of `b` |
| Text.SplitJoin | google/tool.py:137 | splitting separator-free pieces joined with the separator gives the pieces back |
| Text.LastSegment | azure/tool.py:42 | the operation id contains no "/", ends the location, and follows a "/" unless it is the whole location |
| AzureRead.OperationIdRoundTrip | azure/tool.py:41-42 | an id without "/" at the end of a location after a "/" is read back unchanged |
| AzureRead.ReadStop | azure/tool.py:45-49 | polling ends at the first result whose status is neither notStarted nor running |
| AzureRead.ReadOutcomeOf | azure/tool.py:45-52 | the results are read only from that first finished result: its pages, or an `AttributeError` when it carries none; if there is none, the read is still going |
| AzureRead.PageOutcome | azure/tool.py:38-52 | a missing `Operation-Location` header fails before any poll |
| AzureRead.SendImageToAzure | azure/tool.py:32-52 | polls the operation id after the last "/" of the header, which contains no "/", and ends with the specified outcome |
| AzureRead.LineTextsLength | azure/tool.py:55-61 | the extracted text has one entry per line |
| AzureRead.LineTextAt | azure/tool.py:55-61 | line `l` of page `p` has its text at the position after the lines of the earlier pages |
| AzureRead.ExtractDataFromResult | azure/tool.py:55-61 | the loop returns every line's text, page by page and line by line, one entry per line |
| AzureRead.ReadPages | azure/tool.py:82-90 | pages are read in order and each page read to the end has its line texts printed; a page whose read fails or never finishes ends the run, and then it is the next page after those printed |
| AzureRead.RunAzure | azure/tool.py:64-90 | `FILE_PATH` is checked first, then the endpoint and key, and no client is built unless both checks pass; the pages are then read as above |

## Left out

- PDF rasterisation, PNG and base64 encoding, and the image crop are not modelled. Each page
  is represented only by what the service returns for it.
- Network calls are parameters:
  - Textract `start_document_analysis` and `get_document_analysis`;
  - Vision `document_text_detection` (so `send_image_to_google_vision` is the `recognise`
    parameter);
  - Azure `read_in_stream` and `get_read_result`.
- The start call's own failures are not modelled: a missing `JobId` and the upload failing.
- `time.sleep` is not modelled. A poll that never finishes is a finite list of answers that
  runs out (`StillRunning`, `StillReading`) rather than an endless loop.
- Credential handling is not modelled. This covers Google's `check_credentials` and `exit(1)`,
  AWS `NoCredentialsError`, and the Azure client construction beyond the flag saying whether it
  happened.
- Printing is modelled only as what is printed: the AWS tool's text, shown pairs and shown
  cells, the Google tool's page reports, and the Azure tool's line texts per page. Message
  wording, formatting and the progress lines are not modelled, and the diagnostic print for a
  LINE block without `Text` is dropped.
- `main`'s catch-all `except Exception` in the AWS tool is modelled as the run's outcome, not
  as a printed message.
- `normalized_vertices` of Vision bounding boxes are not modelled. A box is true exactly when it
  has vertices.
- Textract pagination (`NextToken`) is not modelled: the tool reads only the first page of
  results.
- gateway/tool.py, the fourth tool (which sends the PDF to an LLM gateway), is not part of this
  model.
- GoogleMain.FoundBoxesHaveVertices: the promise that no crop fails holds only because a box
  counts as true exactly when it has vertices. In the service's messages a box with only
  `normalized_vertices` is also true, so it can become a pair; `min` of its empty vertex list
  then raises `ValueError`, which `main` does not catch. The model does not capture that run.
- Text.IsSpace: uses the whitespace set of Python's `str.strip()` for the characters listed,
  with no Unicode database behind it.
