# Disease-category enrichment over the MONDO ontology — a Dafny model

This project models the core of a small analysis pipeline. The pipeline relates fruit-fly genes
to human disease categories:

- `mondo_utils.py` reads the MONDO disease ontology (an OBO-graph JSON document). From it, it
  builds three things:
  - an is-a tree of the MONDO disease nodes (`part_1`), with parent and child links in both
    directions and the list of roots;
  - a breadth-first walk of three rounds towards the roots (`part_2`), which returns the
    labels of the frontier after three rounds; that frontier, and so the result, is empty when
    the walk dies out sooner;
  - an index from Disease Ontology ids (`DOID:…`) to the sorted, duplicate-free MONDO ids that
    cite them (`build_doid_to_mondo_mapping`).
- `PROJECT_2_Genomic-Disease-Association-FisherTest.py` does the rest:
  - reads the FlyBase disease-model table (`FlyBase.parse`);
  - maps each annotation's DOID to MONDO categories (`MondoKnowledge`);
  - groups genes by their qualifiers and categories (`DiseaseAnalysis._prepare_data`);
  - for every (category, qualifier) pair, counts the genes in the four cells of a 2x2
    contingency table and hands the table to Fisher's exact test (`run_analysis`).

The model follows the shape of the code:

- **Loops become methods.** Each loop of the Python becomes a method with a loop. Each such
  method is proved against a specification function over the prefix already processed:
  `Registry`, `LinkEdges`, `WalkAfter`, `Gathered`, `KeptRecords`, `AbsorbAll`, `RowCells`,
  `GridCells`. Lemmas then state what those functions mean.
- **Updated objects become classes.** The objects whose fields the script updates are classes:
  `FlyBase` and `DiseaseAnalysis`. `MondoKnowledge` is never changed after construction, so it
  is a datatype.
- **Exceptions become errors.** Python's exceptions, and `part_1`'s `None`, are the `Failure`
  values of a `Result`.
- **Lists without a meaningful order become sets.** Python turns the parent and child sets
  into lists of arbitrary order; the model keeps them as sets.

Modules, one per file:

- `Wrappers`: `Option` and `Result`.
- `Text`: `startswith`, `split('/')[-1]` and `strip()`.
- `Ordering`: Python's string order, `sorted` and `sorted(set(…))`.
- `Ontology`: `part_1`.
- `Ancestors`: `part_2`.
- `DoidIndex`: the DOID index.
- `Knowledge`: `MondoKnowledge`.
- `FlyBaseRows`: `FlyBase`.
- `Analysis`: `DiseaseAnalysis`.

Three behaviours of the code are worth stating outright, since a reader might expect otherwise:

- **Labels are not deduplicated.** `part_2` (mondo_utils.py:85-91) appends the label of every
  node of the last frontier, so two frontier nodes with the same label give it twice.
  `Ancestors.AncestorLabels` states the multiplicities.
- **Only the final frontier counts.** The walk runs for up to three rounds and returns the
  labels of the last frontier only. For the chain LEAF → MID → ROOT, starting at LEAF, the
  walk moves to MID, then to ROOT, then to nothing, so the result is `[]`.
  `Ancestors.ChainHasNoCategories` proves this.
- **Rows need six columns.** The row filter keeps rows with more than five columns, that is
  with a `do_term` column.

## Model

| member | source | states |
|---|---|---|
| Text.StartsWithIsPrefix | mondo_utils.py:21 | `startswith` holds exactly when the prefix is the initial slice of the string |
| Text.LastSegmentIsSuffix | mondo_utils.py:22 | the short id `split('/')[-1]` is a suffix of the URL |
| Text.LastSegmentAfterSlash | mondo_utils.py:22 | the short id holds no '/', and is preceded by '/' unless it is the whole URL |
| Text.Strip | PROJECT_2_Genomic-Disease-Association-FisherTest.py:66-69 | `strip()` yields the slice of the cell between the leading and the trailing white space; it is empty exactly when the cell is all white space, and otherwise begins and ends with a non-space character |
| Ordering.Sort | mondo_utils.py:91 | `sorted` returns the same elements, with their multiplicities, in ascending Python string order |
| Ordering.SortedUnique | mondo_utils.py:91 | two ascending sequences with the same elements and multiplicities are equal, so the sorted result is unique |
| Ordering.SortedDistinct | mondo_utils.py:128 | `sorted(set(xs))` is strictly ascending and holds exactly the elements of `xs` |
| Ordering.SortedElements | PROJECT_2_Genomic-Disease-Association-FisherTest.py:129-130 | sorting a set gives a strictly ascending list of exactly its elements, one entry per element |
| Ontology.FirstGraph | mondo_utils.py:10 | `data.get("graphs", [{}])[0]` fails exactly when the graphs list is empty |
| Ontology.RegisterNodes | mondo_utils.py:18-28 | registers one entry per short id of a MONDO node, under that id, with the label of the last node with that id, unlinked; `order` is the insertion order of the dictionary, `FirstOrder`, listing each key once |
| Ontology.RegistryKeys | mondo_utils.py:18-22 | a key is registered exactly when some node in the MONDO namespace has it as its short id |
| Ontology.RegistryShape | mondo_utils.py:23-28 | each registered entry is stored under its own id and starts with no parents or children |
| Ontology.RegistryLabels | mondo_utils.py:21-28 | a later node with the same short id overwrites an earlier one, so each entry carries the label of the last node with that id |
| Ontology.LinkIsA | mondo_utils.py:30-46 | the edge loop performs, edge by edge, the link step of an accepted `is_a` edge |
| Ontology.IgnoredEdge | mondo_utils.py:34-43 | an edge that is not `is_a`, lacks an endpoint, lies outside the namespace or names an unregistered node changes nothing |
| Ontology.LinkEdgeKeeps | mondo_utils.py:43-45 | one edge leaves the keys, and every node's id and label, as they were |
| Ontology.LinkEdgeParents | mondo_utils.py:43-44 | one edge adds to a node's parents exactly the registered object it names, when the node is its subject |
| Ontology.LinkEdgeChildren | mondo_utils.py:43-45 | one edge adds to a node's children exactly the registered subject it names, when the node is its object |
| Ontology.LinkEdgesKeep | mondo_utils.py:30-46 | after all edges, the keys are unchanged and each node keeps its id and label |
| Ontology.LinkEdgesParents | mondo_utils.py:31-44 | after all edges, each node has gained exactly the registered parents that some accepted `is_a` edge names |
| Ontology.LinkEdgesChildren | mondo_utils.py:31-45 | after all edges, each node has gained exactly the registered children that some accepted `is_a` edge names |
| Ontology.LinkEdgesExact | mondo_utils.py:30-46 | starting from unlinked nodes, the parents and children of every node are exactly those that the accepted `is_a` edges give |
| Ontology.LinkedIsMirrored | mondo_utils.py:44-45 | B is a parent of A exactly when A is a child of B, and no link leaves the registry |
| Ontology.EntriesKept | mondo_utils.py:44-45 | linking changes only the parent and child sets, so the registered ids and labels are kept |
| Ontology.CollectRoots | mondo_utils.py:48-54 | the roots list holds, once each, exactly the nodes without parents, in the order in which they occur in the dictionary order it walks |
| Ontology.BuildTree | mondo_utils.py:7-60 | an empty graphs list is an `IndexError`; no nodes gives `None`; otherwise the tree is registered, mirrored, closed, linked by exactly the accepted edges, and its roots are listed in the order their nodes were first registered |
| Ontology.FirstOrderKeys | mondo_utils.py:18-28 | the dictionary's insertion order lists exactly the registered keys |
| Ontology.FirstOrderWriter | mondo_utils.py:18-28 | every key in the insertion order has a first node that registers it |
| Ontology.FirstOrderAscending | mondo_utils.py:18-28 | the insertion order lists the keys in the order of their first registering nodes; a later node with the same id does not move its key |
| Ancestors.NextLevel | mondo_utils.py:75-80 | one round yields the unvisited registered parents of the current level and adds them to the visited set |
| Ancestors.FrontierLabels | mondo_utils.py:84-88 | the labels list holds each non-empty label of the frontier as many times as frontier nodes carry it |
| Ancestors.AncestorLabels | mondo_utils.py:63-91 | an unknown start gives `[]`; otherwise the result is sorted, and each label occurs once per node of the frontier after three rounds that carries it |
| Ancestors.UnknownStart | mondo_utils.py:66-68 | a start outside the tree reaches no frontier and has no categories |
| Ancestors.DiedOut | mondo_utils.py:74 | once the frontier is empty it stays empty, so stopping the loop early changes nothing |
| Ancestors.WalkIsBreadthFirst | mondo_utils.py:70-82 | after k rounds, `visited` holds exactly the nodes at most k links above the start; the frontier holds exactly those whose shortest distance is k |
| Ancestors.FrontiersDisjoint | mondo_utils.py:77-79 | no node belongs to two generations, so a cycle cannot bring a node back |
| Ancestors.ChainHasNoCategories | mondo_utils.py:74-91 | for the chain LEAF → MID → ROOT, the walk from LEAF ends with an empty frontier and no labels |
| DoidIndex.BuildDoidIndex | mondo_utils.py:93-130 | a missing `graphs` or `nodes` key is a `KeyError` and an empty graphs list an `IndexError`, and these are the only failures: the index is built exactly when `graphs` is a non-empty list whose first graph has `nodes`; it then maps exactly the cited DOIDs to non-empty, strictly sorted lists of exactly the citing MONDO ids |
| DoidIndex.GatherDoids | mondo_utils.py:105-123 | the node loop, node by node, appends the node's short id for each DOID value in its two lists |
| DoidIndex.AppendDoids | mondo_utils.py:113-117 | an inner loop appends the short id to the list of every value that starts with `DOID:` |
| DoidIndex.Dedupe | mondo_utils.py:126-128 | each list becomes strictly sorted and keeps exactly its elements; the keys are unchanged |
| DoidIndex.AppendAt | mondo_utils.py:113-123 | appending adds exactly the DOID values as keys and the short id to each of their lists, and no list is empty |
| DoidIndex.GatheredAt | mondo_utils.py:105-123 | the gathered keys are exactly the cited DOIDs, and each list names exactly the nodes that cite its DOID |
| Knowledge.LoadKnowledge | PROJECT_2_Genomic-Disease-Association-FisherTest.py:20-24 | `part_1` runs first, so an empty graphs list is its `IndexError`, then a missing key is the index builder's `KeyError`; these are the only failures, so loading succeeds exactly when `graphs` is a non-empty list whose first graph has `nodes`, even an empty one; then a missing tree comes with an empty index, and every indexed MONDO id is a node of the tree |
| Knowledge.GetMondoIds | PROJECT_2_Genomic-Disease-Association-FisherTest.py:37-38 | `doid_map.get(doid, [])`: an unlisted DOID gets no ids; in a coherent knowledge base every id returned is a node of the tree |
| Knowledge.MondoIdsAreCiters | PROJECT_2_Genomic-Disease-Association-FisherTest.py:37-38 | the ids returned are strictly sorted and exactly the MONDO nodes citing the DOID; they are empty exactly when no node cites it |
| Knowledge.CategoriesForDoid | PROJECT_2_Genomic-Disease-Association-FisherTest.py:26-35 | the categories are the union of the walk labels of every MONDO id listed for the DOID; an unknown DOID has none |
| FlyBaseRows.KeepRow | PROJECT_2_Genomic-Disease-Association-FisherTest.py:58-80 | a row is kept exactly when it has a term column, is not a `##` comment, and has a non-blank gene, qualifier and DOID; the kept record is the stripped cells 0, 3, 4 and 5 of the row, so gene, qualifier and DOID are non-empty with no white space at either end, and the term has none either |
| FlyBaseRows.KeptRecordsFilter | PROJECT_2_Genomic-Disease-Association-FisherTest.py:53-81 | the records are exactly those of the rows that pass the filter, and there are no more records than rows |
| FlyBaseRows.FilterMapExact | PROJECT_2_Genomic-Disease-Association-FisherTest.py:58-81 | the loop that appends what the row filter yields keeps at most one value per row, and exactly the values some row yields |
| FlyBaseRows.FlyBase.constructor | PROJECT_2_Genomic-Disease-Association-FisherTest.py:49-51 | a new reader starts with no records |
| FlyBaseRows.FlyBase.Parse | PROJECT_2_Genomic-Disease-Association-FisherTest.py:53-83 | `records` is replaced by the kept records of the rows, in row order, and returned |
| Analysis.TallyCell | PROJECT_2_Genomic-Disease-Association-FisherTest.py:141-158 | A, B, C and D count the genes with both the category and the qualifier, only the category, only the qualifier, and neither; they sum to the number of genes; A+B is the number of genes with the category and A+C the number with the qualifier |
| Analysis.BucketsPartition | PROJECT_2_Genomic-Disease-Association-FisherTest.py:141-155 | every gene falls in exactly one of the four cells of the contingency table, so A+B+C+D is the number of genes |
| Analysis.AnalyseRow | PROJECT_2_Genomic-Disease-Association-FisherTest.py:134-180 | for one category, the inner loop records, qualifier by qualifier, each pair with A+B > 0 |
| Analysis.AnalyseCells | PROJECT_2_Genomic-Disease-Association-FisherTest.py:133-180 | the two loops record the rows of the categories one after another |
| Analysis.RowCellsKeys | PROJECT_2_Genomic-Disease-Association-FisherTest.py:134-160 | a row has a result for exactly the pairs of its category that pass the A+B > 0 guard |
| Analysis.CellFor | PROJECT_2_Genomic-Disease-Association-FisherTest.py:136-180 | the recorded result for a pair: observed A, the table's A, is the number of genes with both the category and the qualifier; the first row sums to the genes with the category, the first column to those with the qualifier, and the table holds every gene once, which fixes all four cells; expected A is (A+B)(A+C)/N; the fold change is A over expected A, infinite exactly when no gene has the qualifier; the test result is `fisher` of the table |
| Analysis.BucketBoth | PROJECT_2_Genomic-Disease-Association-FisherTest.py:145-151 | the genes counted in A are exactly those with both the category and the qualifier |
| Analysis.ExpectedCount | PROJECT_2_Genomic-Disease-Association-FisherTest.py:163-166 | expected A is positive exactly when A+C > 0, and then A divided by it, times it, gives A back |
| Analysis.GridCellsShape | PROJECT_2_Genomic-Disease-Association-FisherTest.py:133-180 | each recorded result carries its pair's table, observed and expected A, fold change and test result; results exist for exactly the pairs that pass the guard |
| Analysis.GridCellsAscending | PROJECT_2_Genomic-Disease-Association-FisherTest.py:129-134 | looping over sorted categories and then sorted qualifiers yields results in strictly ascending (category, qualifier) order, so no pair is recorded twice |
| Analysis.EveryPairTested | PROJECT_2_Genomic-Disease-Association-FisherTest.py:160 | every category of `all_categories` is carried by some gene, so A+B > 0 for every pair |
| Analysis.AbsorbAllConsistent | PROJECT_2_Genomic-Disease-Association-FisherTest.py:98-114 | recording keeps every gene's qualifiers and categories non-empty and the two `all_` sets equal to their unions over the genes |
| Analysis.PreparedGenes | PROJECT_2_Genomic-Disease-Association-FisherTest.py:96-108 | from the empty state, a gene is recorded exactly when one of its annotations has a DOID with categories |
| Analysis.PreparedQualifiers | PROJECT_2_Genomic-Disease-Association-FisherTest.py:96-109 | from the empty state, a recorded gene's qualifiers are exactly those of its annotations whose DOID has categories |
| Analysis.PreparedCategories | PROJECT_2_Genomic-Disease-Association-FisherTest.py:96-110 | from the empty state, a recorded gene's categories are exactly the categories of the DOIDs of its annotations |
| Analysis.DiseaseAnalysis.constructor | PROJECT_2_Genomic-Disease-Association-FisherTest.py:87-93 | stores the parser and the knowledge base and starts from an empty, consistent state |
| Analysis.DiseaseAnalysis.PrepareData | PROJECT_2_Genomic-Disease-Association-FisherTest.py:96-116 | records the parser's records one by one into the state, keeping it consistent, and leaves the results alone |
| Analysis.DiseaseAnalysis.RunAnalysis | PROJECT_2_Genomic-Disease-Association-FisherTest.py:124-180 | prepares the data, then appends results in strictly ascending order, exactly one per (category, qualifier) pair of the two `all_` sets, each with its own table and statistics, keeping the earlier results |

## Left out

- **File reading.** Opening and reading the files, the JSON decoding and the TSV splitting of
  `csv.reader` are not modelled. The model starts from the parsed document (`Document`) and from
  the rows as lists of cells. A JSON `null` where a string or list is expected is not modelled.
- **Printing.** Every `print` is left out. This covers the messages of `part_1` and `part_2`,
  the record and gene counts, `print_top_results` and the report of
  `run_multiple_testing_correction`.
- **Statistical tests.** The SciPy and statsmodels calls are left out. `fisher_exact` is a
  function parameter `fisher` applied to the table, with any result type.
  `run_multiple_testing_correction` (Benjamini–Hochberg through `multipletests`) and the
  p-value sort of `print_top_results` depend on library floating point and are not modelled.
- **Floating point.** Expected A and the fold change are exact rationals (`real`), not IEEE
  doubles. An infinite fold change is `None`.
- **Order of the parent and child lists.** `part_1` turns the parent and child sets into
  Python lists of arbitrary order. The model keeps them as sets.
- **Order of traversal.** Dictionary iteration order is modelled only where it is observable.
  `Ontology.RegisterNodes` records the dictionary's insertion order (`FirstOrder`), and
  `Ontology.CollectRoots` keeps the roots in that order. The walk of `part_2`,
  the gene loop and the dedupe loop iterate over sets, because their results do not depend on
  the order.
- **Where results are collected.** `Analysis.AnalyseCells` collects the new results and
  `RunAnalysis` appends them afterwards, instead of appending inside the loop. The resulting
  list is the same.
- **Edge counter.** The `edge_count` counter of `part_1` is never read, so it is not modelled.
- **Integer width.** Counts are unbounded naturals. Python integers do not overflow either.
