# A model of fossil: compiling a mapping language and running it into a property graph

Fossil compiles mappings over tabular and RDF sources and runs them into a property graph. This project states, in
Dafny, what its executor and its checker decide themselves, and proves what they promise.

* **The graph** (`Tables`, `Vertices`, `VertexLaws`, `Origins`, `Edges`, `Materialise`, `Numbering`, `Rdf`). Tables are
  sequences of rows cut into batches; a value is its rank in its column's order, and a null is no value. Relational
  operators are taken by their meaning, with whatever order and whatever batches the engine likes. The accumulator loops
  of the executor are methods over them: each vertex type from all its mappings, a refusal when a subject has two
  values, dense ids across types, edges resolved against those ids, and the RDF pivot. `Origins` says what comes out of
  the mappings' own rows, without the union between.
* **The plan** (`Text`, `Plan`, `Join`). The memoised walk over operators against their recursive meaning, and join
  conditions split under three-valued logic.
* **The checker and the folder** (`Types`, `Hir`, `Check`, `Rules`, `Checker`, `Fold`, `Evaluation`, `Soundness`).
  `Check` says what type an expression has and what is reported, and `Rules` that in plain terms, case by case;
  `Checker` is the object that updates its sink, its first error and its expectation, proved against it; `Fold` decides
  constants, and `Evaluation` says what they are worth with operators of its own; `Soundness` joins the two.
* **Texts** (`Decimal`, `Spans`, `Display`, `Reading`, `Printed`, `Injective`, `Pipes`, `Template`, `TemplateReader`,
  `TemplateGrammar`, `TemplateLaws`, `TemplateAccepts`). The printer of lowered trees with a reader that undoes it; and
  the template reader against the grammar its documentation gives, with everything a writer may choose, both ways.
* **Plans and memory** (`Rewrite`, `Memory`). Two rewrites of physical plans, by the results a plan may put out, and the
  budget over every interleaving of its consumers' steps.
* **Canonical forms** (`Names`, `Shapes`, `Declared`). Header names, the order of shapes, and one spelling per count.

What is taken as given is a parameter: what an engine's operator puts out, floating-point arithmetic, a float's text, a
program's catalogue and names, which characters beyond ASCII are letters, and what the engine makes of a call. Every
property holds whatever these are, unless a `requires` says what is asked of them, or, of characters, the type
`Template.Env`: that no white space is a letter or numeric. Every lemma is proved by the steps it shows: automatic
induction is off throughout. A `hide` statement in a proof only keeps a definition the proof does not need from the
solver.

## Where the code and what is said of it differ

* The printer's module says that two programs that differ in the tree render differently. It is false.
  `Injective.TreesThatPrintAlike` gives six kinds of pair a text does not tell apart, `Injective.BracesPrintAlike` a
  string that holds a hole's text, `Injective.QuotesPrintAlike` a string that holds a quote, and
  `Pipes.ColumnsPrintAlike` and `Pipes.StagesPrintAlike` columns whose names hold a comma or a closing parenthesis.
  Lowering makes some of these pairs within one program: `"{{x}"` and `"{x}"`; `1.0` and `1`; a float past every number,
  which prints as `inf`, and a column of that name; and the columns. A call and an edge of one name are pairs of two
  programs with different types. The others (a string as an interpolation without a hole, a run cut in two, a negative
  literal, an unescaped quote) are trees no program lowers to.
* When it does hold is `Injective.PrintAlikeIffSaySame`, and `Pipes.PipesPrintAlikeIffSaySame` of pipelines: it asks
  that names lex as names, that a float's text is a number's or a name, that columns' names hold neither comma nor
  closing parenthesis, and that texts hold no opening brace, no quote but an escaped one, and end inside an escape only
  before a hole. Lowering can leave a string that ends inside an escape (`"a\""` loses both quotes); nothing is claimed
  of those.
* The template grammar in the reader's comment gives a call at least one argument; the reader accepts none, and refuses
  a function called `cast` or `case`. The model follows the reader.
* A declared count has one spelling, says `seq_bounds`, and so it has (`Declared.OneSpellingPerCount`). A whole field
  type has not: bounds on what a count holds are read past, so `Option<Time<Year, 3>>` is `Option<Time<Year>>`
  (`Declared.HeldBoundsAreIgnored`), and a type introduced under two names is written by either.
  `Declared.OneSpellingPerType` says that there is nothing else. The parser hands over at most two bounds
  (`crates/fossil-syntax/src/parser/items.rs:557-588`).
* A vertex type with no batches is registered with an empty schema, so an edge or a multi-valued property that reads it
  is refused by the engine rather than empty. The methods of `Edges` and `Vertices` say so.

## Model

| member | source | states |
|---|---|---|
| Tables.Collect | crates/fossil-exec/src/lib.rs:377-382 | a collected result is the rows of the relation, however the engine cuts them into batches |
| Tables.Aggregate | crates/fossil-exec/src/lib.rs:486-512 | grouping gives one group per distinct subject, in any order: the least, the greatest and whether there were several of the non-null values offered |
| Tables.SortBySubject | crates/fossil-exec/src/lib.rs:486-519 | a sort is a permutation in subject order; ties come out in any order |
| Tables.DistinctSorted | crates/fossil-exec/src/lib.rs:1005-1043 | distinct and sort keep exactly the set of pairs, strictly ascending |
| Tables.StrictPairsAreCanonical | crates/fossil-exec/src/lib.rs:1005-1043 | a strictly sorted table is settled by the set of its rows alone |
| Vertices.MergeNode | crates/fossil-exec/src/lib.rs:379-396 | the merged node has every property of every mapping once, each where it is first seen and as it is said there |
| Vertices.MergedNames | crates/fossil-exec/src/lib.rs:379-396 | a property is in the merged node exactly when some mapping writes it |
| Vertices.UnionAll | crates/fossil-exec/src/lib.rs:436-456 | the union is the mappings' own rows in order, each with its own entry in every column its mapping writes and null in the others; a column a mapping spells as a list and another as a scalar is refused |
| Vertices.UnionMember | crates/fossil-exec/src/lib.rs:436-456 | a row is in the union exactly when it is some mapping's own row with nulls where its mapping writes nothing |
| Vertices.SingleValuedBatch | crates/fossil-exec/src/lib.rs:939-966 | one batch passes exactly when no group of it saw two values, and then keeps each group's value; the refusal names a group, a property and its two values |
| Vertices.SingleValued | crates/fossil-exec/src/lib.rs:939-966 | the same over all batches, however the rows are split: refused exactly when some group saw two values of a property |
| Vertices.PrependDenseId | crates/fossil-exec/src/lib.rs:714-747 | ids count on from the first across batches whatever the batch boundaries, and the numbering fails exactly when one past the last id exceeds a `u32` |
| Vertices.RowPerValueMember | crates/fossil-exec/src/lib.rs:632-642 | unnesting a list column gives exactly the pairs of a row and one of its values, a null for none |
| Vertices.JoinMember | crates/fossil-exec/src/lib.rs:847-917 | a join on subjects gives exactly the ids of the vertices that carry the subject, beside the row's value |
| Vertices.PropertyValues | crates/fossil-exec/src/lib.rs:524-566 | the table of a multi-valued property is exactly the set of (vertex id, non-null value) any row of any mapping offers, strictly sorted |
| Vertices.LeastIsGreatest | crates/fossil-exec/src/lib.rs:939-966 | when all offers of a property agree, least and greatest are that one value |
| Vertices.MergeRows | crates/fossil-exec/src/lib.rs:486-519 | deduplication refuses exactly when some subject is offered two distinct non-null values of a single-valued property; otherwise one row per distinct subject, strictly sorted, each property the one value offered or null |
| Vertices.PropertyTables | crates/fossil-exec/src/lib.rs:520-566 | every multi-valued property of the type has its table, in order |
| Vertices.TableRows | crates/fossil-exec/src/lib.rs:486-519 | the rows of a type, deduplicated or not, as the type's table has them |
| Vertices.FinalizeVertex | crates/fossil-exec/src/lib.rs:379-576 | a vertex type from its mappings: the table, its property tables and the registration, or a refusal that states which of the two-values, too-large or engine conditions holds; what its values are is said of the mappings' own rows in `Origins` |
| VertexLaws.MergeIsCanonical | crates/fossil-exec/src/lib.rs:384-519 | two relations merge into one table exactly when they have the same subjects and offer each the same values, column by column: row order, repetition, column order and nulls do not reach it |
| VertexLaws.MappingOrderIsIrrelevant | crates/fossil-exec/src/lib.rs:384-519 | permuting the mappings of a type leaves its vertices, ids included, as they were |
| VertexLaws.MappingOrderKeepsProperties | crates/fossil-exec/src/lib.rs:524-566 | and the table of each multi-valued property |
| VertexLaws.PropertyTableIsCanonical | crates/fossil-exec/src/lib.rs:524-566 | two row sets that offer each subject the same values have one property table |
| VertexLaws.SilentMappingErasesNothing | crates/fossil-exec/src/lib.rs:397-519 | adding a mapping that does not write a property changes no vertex's value of it |
| Origins.VertexSaysWhatItsRowsSay | crates/fossil-exec/src/lib.rs:379-519 | of the mappings' own rows: a merged vertex has the value x of a single-valued property exactly when some row of some mapping, of the vertex's subject, says x |
| Origins.MergedTableSaysItsRows | crates/fossil-exec/src/lib.rs:379-519 | a merged table has one vertex for each subject of its mappings' rows, with exactly the single-valued properties a mapping writes and the values its rows say |
| Origins.CopiedTableSaysItsRows | crates/fossil-exec/src/lib.rs:513-519 | a table that is not merged has each vertex as often as its mappings' rows show it, subject and every property, in subject order |
| Origins.PropertyTablesHoldItsRows | crates/fossil-exec/src/lib.rs:520-566 | a pair of an id and a value is in the table of a multi-valued property exactly when some row of some mapping, of that vertex's subject, holds the value, alone or in a list |
| Origins.ConflictIsTwoRows | crates/fossil-exec/src/lib.rs:486-512 | the mappings' rows conflict exactly when two rows of one subject say two values of one single-valued property |
| Origins.RefusalNamesTwoRows | crates/fossil-exec/src/lib.rs:939-966 | the values a refusal names are said by two rows of the subject it names, of the property it names |
| Origins.BuiltSaysNoTwo | crates/fossil-exec/src/lib.rs:939-966 | and a merged type that is built has no such two rows |
| Origins.AgreementIsPairwise | crates/fossil-exec/src/lib.rs:436-456 | the union is refused exactly when two mappings spell one column apart, a list and a scalar |
| Materialise.GroupByKey | crates/fossil-exec/src/lib.rs:134-141 | grouping in first-seen order: every key once, with exactly its items in order |
| Materialise.CountIsGroupCount | crates/fossil-exec/src/lib.rs:142-154 | how many vertices a type makes is settled by its mappings' rows: the distinct subjects, or all rows where it does not deduplicate |
| Materialise.VertexPhase | crates/fossil-exec/src/lib.rs:131-154 | every type is built and numbered from where the one before ended; a failure is some type's own refusal: two values, a list against a scalar, no batches to read, or more vertices than ids |
| Materialise.EdgePhase | crates/fossil-exec/src/lib.rs:156-200 | one edge table per (source, label, destination), however many mappings write it; the engine refuses exactly when some end has no table, and any other failure is a single-valued relation with two destinations |
| Materialise.OneRelation | crates/fossil-exec/src/lib.rs:156-200 | an edge relation is exactly the id pairs any of its mappings offers, of the type its first mapping says; a refusal names by subject a source and two destinations it is offered, and the relation is single-valued |
| Materialise.JoinsDoNotDangle | crates/fossil-exec/src/lib.rs:847-917 | both ends of every offered pair are vertices of the graph |
| Materialise.GroupDropped | crates/fossil-exec/src/lib.rs:847-917 | the dropped count of a relation is the sum of its mappings' drops |
| Materialise.ExecuteGraph | crates/fossil-exec/src/lib.rs:113-201 | the whole run: every type built, numbered and registered, its vertices and its property tables exactly what its mappings' own rows say (`Origins.SaysItsRows`), every relation exactly what its mappings offer, or a failure whose cause holds: a refused type, an end with no table, or a single-valued relation with two destinations; too large only when the vertices exceed a `u32` |
| Numbering.TypeIsARange | crates/fossil-exec/src/lib.rs:142-154 | each type is one contiguous range of the numbering |
| Numbering.NumberingIsDense | crates/fossil-exec/src/lib.rs:142-154 | over all types, place i of the graph has the id i, ids fill [0, N), and N is the count of vertices and fits a `u32` |
| Numbering.IdIsOnePlace | crates/fossil-exec/src/lib.rs:714-747 | two places of the graph have one id exactly when they are one place |
| Numbering.IdsRunWithSubjects | crates/fossil-exec/src/lib.rs:714-747 | inside a deduplicated type ids order as subjects do, so type and subject determine the id and are determined by it |
| Numbering.DedupedSubjectsAreUnique | crates/fossil-exec/src/lib.rs:847-917 | a deduplicated table has a subject at most once: what counting drops asks of it |
| Edges.ResolveMember | crates/fossil-exec/src/lib.rs:847-917 | a pair of ids is resolved exactly when some candidate's two ends name those two vertices |
| Edges.EveryCandidateIsMatchedOrDropped | crates/fossil-exec/src/lib.rs:847-917 | while subjects are unique, candidates = matched + dropped, exactly |
| Edges.ResolvesAsOftenAsItPairs | crates/fossil-exec/src/lib.rs:847-917 | a candidate resolves once for each pair of vertices that carry its two ends, whether subjects are unique or not |
| Edges.ExecuteEdge | crates/fossil-exec/src/lib.rs:847-917 | one mapping's edges resolve to exactly the joined pairs, as many as there are pairs of vertices its candidates name, and what is dropped is what candidates there are beyond those; an end whose table was registered with no batches is an engine refusal |
| Edges.FindSecond | crates/fossil-exec/src/lib.rs:1053-1105 | the adjacent-pair scan finds the first place where a source has a second destination, across batch boundaries |
| Edges.SingleValuedEdge | crates/fossil-exec/src/lib.rs:1053-1105 | a sorted single-valued relation is refused exactly when some source has two destinations, however it is split; the refusal names the subjects |
| Edges.FinalizeEdge | crates/fossil-exec/src/lib.rs:1005-1043 | the relation's table is its mappings' pairs, each once, strictly sorted, with the drops summed; refused exactly when it is single-valued and a source has two destinations |
| Rdf.RdfToBatch | crates/fossil-exec/src/rdf.rs:60-141 | the pivot fails exactly on a literal with a base direction, at the first; else one row per subject of the type in order, a single-valued cell the least object, a multi-valued one every object sorted |
| Rdf.PivotRows | crates/fossil-exec/src/rdf.rs:93-138 | each row holds, column by column, what the triples say of its subject |
| Rdf.TripleOrderIsIrrelevant | crates/fossil-exec/src/rdf.rs:60-141 | permuting the triples leaves the pivot as it was |
| Rdf.SpellingsOfferTheSame | crates/fossil-exec/src/rdf.rs:100-121 | a list column and repeated rows offer each subject the same values |
| Rdf.SpellingsMakeOnePropertyTable | crates/fossil-exec/src/rdf.rs:100-121 | so the list spelling and the repeated-rows spelling make one property table |
| Rdf.SpellingsMakeOneEdgeSet | crates/fossil-exec/src/rdf.rs:100-121 | and one set of edges |
| Rdf.ResolvesWhatIsOffered | crates/fossil-exec/src/lib.rs:847-917 | an edge column resolves to exactly the id pairs its rows offer, in either spelling |
| Plan.MarkInputs | crates/fossil-exec/src/plan.rs:422-445 | marking an op's inputs keeps the backward walk settled, or reports the first input not below its reader |
| Plan.EvaluationOrder | crates/fossil-exec/src/plan.rs:422-445 | exactly the ops under the index by the operators' own operands, ascending and once; fails exactly when the index is past the end or an op under it reads an index not below its own, and then names an operand |
| Plan.MarkedAreReached | crates/fossil-exec/src/plan.rs:422-445 | once the walk is settled the marks are reachability |
| Plan.InputsComeFirst | crates/fossil-exec/src/plan.rs:422-445 | ascending order is dependency order |
| Plan.PlanRelation | crates/fossil-exec/src/plan.rs:44-58 | building each op once equals the recursive meaning, a join or union the engine's of its left and its right in that order, fails when it fails, and no look-up of an input misses |
| Plan.DerivedFrom | crates/fossil-exec/src/plan.rs:403-414 | exactly the sources under the index, those of both sides of a join or union, each once, sorted; fails exactly as the order does |
| Plan.MeaningIsMeans | crates/fossil-exec/src/plan.rs:44-58 | the recursive meaning, operator by operator, in the operators' own fields |
| Plan.ReachedIsUnder | crates/fossil-exec/src/plan.rs:422-470 | what an op reaches is itself and what is under its operands: both sides of a join or union, the input of any other, none of a source |
| Plan.SourcesAreUnder | crates/fossil-exec/src/plan.rs:403-414 | the sources of a join or union are those of its left and those of its right, of a one-input op those of its input, of a source itself |
| Text.Insert | crates/fossil-exec/src/plan.rs:403-414 | sorting and removing repeats, an element at a time |
| Text.LeIsBefore | crates/fossil-exec/src/plan.rs:403-414 | the order of texts is a dictionary's: a proper prefix first, else the first place they part |
| Join.SplittingKeepsTruth | crates/fossil-exec/src/plan.rs:309-323 | under three-valued logic a condition has the truth of its conjuncts |
| Join.SatisfiesEveryConjunct | crates/fossil-exec/src/plan.rs:309-323 | a row pair satisfies a condition exactly when it satisfies every conjunct |
| Join.TruthIsThreeValued | crates/fossil-exec/src/plan.rs:309-323 | an equality is unknown beside a null; a conjunction is false where a side is, true where both are, else unknown |
| Join.AssociationIsIrrelevant | crates/fossil-exec/src/plan.rs:309-323 | two conditions split into the same conjuncts exactly when rotating their `and`s, anywhere, makes them one condition |
| Join.SameConjunctsSameTruth | crates/fossil-exec/src/plan.rs:309-323 | conditions with the same conjuncts mean the same |
| Join.JoinEqualities | crates/fossil-exec/src/plan.rs:247-289 | accepts exactly conditions all of whose conjuncts equate a column of one side with a column of the other, and returns them; else the refusal of the first that does not |
| Join.EqualitiesAreQualified | crates/fossil-exec/src/plan.rs:247-289 | an equality of two columns is admitted exactly when each is unqualified or qualified by a side: by its alias where it has one, else by one of its relations' names |
| Join.RefusalsAre | crates/fossil-exec/src/plan.rs:247-289 | a conjunct is refused as no equality, as an equality not of two columns, or for the first of its two qualifiers that is no side's |
| Join.ConditionRefs | crates/fossil-exec/src/plan.rs:327-343 | the explicit stack terminates and returns what the recursive walk returns, in its order |
| Join.WalkedAreBeside | crates/fossil-exec/src/plan.rs:327-343 | what is walked is exactly the qualified columns under binary operators and concatenations |
| Join.AdmittedRefsAreAllWalked | crates/fossil-exec/src/plan.rs:327-343 | of an accepted condition the walk collects exactly its qualified references, though it enters neither calls nor branches |
| Join.MissingColumn | crates/fossil-exec/src/plan.rs:182-211 | the first reference to a column its side lacks is found exactly when there is one |
| Join.QualifiedColumnsAreThere | crates/fossil-exec/src/plan.rs:182-211 | a side has its columns exactly when it has the column of every reference its alias, or else one of its relations, qualifies |
| Join.PlanJoin | crates/fossil-exec/src/plan.rs:182-211 | planned exactly when the join is inner, its condition is accepted and its columns exist; then it is the row pairs of which the condition as written is true, and else the refusal is the first there is: the kind, the first conjunct not admitted, the first column the left side lacks, the first the right lacks |
| Join.KeptPairsAgree | crates/fossil-exec/src/plan.rs:247-289 | and those are the pairs where every equated pair of cells is non-null and equal |
| Join.KeptAsOftenAsTheyMeet | crates/fossil-exec/src/plan.rs:182-211 | a kept pair is kept as often as its two rows meet |
| Types.SubtypesIsTransitive | crates/fossil-hir/src/check.rs:1135-1162 | subtyping is transitive where no taint is involved |
| Types.SubtypesIsAntisymmetric | crates/fossil-hir/src/check.rs:1135-1162 | two types without taint satisfy each other exactly when they are one type, up to the order a reference lists its shapes |
| Rules.SubtypesIsWidening | crates/fossil-hir/src/check.rs:1135-1162 | a type satisfies another exactly when, inside the sequences both are, they are one, an integer stands for a float, a reference names no further shape, or one is the taint |
| Rules.NameIsLookedUp | crates/fossil-hir/src/check.rs:1559-1569 | a bare name has the type of the first field of that name in the one row in scope; it is unknown, with that one report, exactly when no field has it, and open where there is no row |
| Rules.ColumnIsLookedUp | crates/fossil-hir/src/check.rs:1684-1707 | a qualified column the same in its binding's row; a binding that is not in scope is what is reported |
| Rules.LiteralsAreTyped | crates/fossil-hir/src/check.rs:1364-1410 | what each literal is, a text an IRI in a slot for one |
| Rules.ConnectivesAreTyped | crates/fossil-hir/src/check.rs:2036-2111 | `and`, `or`: a truth value, one report when an operand cannot be one, and nothing beside a taint |
| Rules.ComparisonsAreTyped | crates/fossil-hir/src/check.rs:2036-2111 | comparisons: a truth value where the two may be compared, one report where they may not, and nothing beside a taint |
| Rules.ArithmeticIsTyped | crates/fossil-hir/src/check.rs:2115-2190 | a quotient is a float, anything else the wider operand, unknown when either is, with a report for each operand that is no number |
| Rules.ConditionalsAreTyped | crates/fossil-hir/src/check.rs:2240-2301 | a conditional is the branch the other satisfies, unless its condition stops it |
| Rules.CallsAreTyped | crates/fossil-hir/src/check.rs:1825-1989 | a call, cause by cause in the order they are reported, its count against the parameters that are not optional |
| Rules.EdgesAreTyped | crates/fossil-hir/src/check.rs:1732-1811 | an edge's reports, end by end and then its own, and the shape it refers to |
| Checker.Diagnostics.Raise | crates/fossil-base/src/error.rs:71-74 | raising adds exactly one diagnostic and yields the taint |
| Checker.Expressions.Raise | crates/fossil-hir/src/check.rs:1307-1332 | and the first error kept is the first raised |
| Checker.Expressions.SynthTy | crates/fossil-hir/src/check.rs:1364-1536 | the type and what is reported are those of the typing rules, which `Rules` states case by case; expectation and recorded entries are left as they were |
| Checker.Expressions.SynthInterpolation | crates/fossil-hir/src/check.rs:1393-1410 | holes are typed outside the slot and the slot is put back |
| Checker.Expressions.SynthEdge | crates/fossil-hir/src/check.rs:1732-1811 | an edge types its arguments, then reports an unknown shape, a missing template or a wrong count, and is a reference whatever it reports |
| Checker.Expressions.SynthCall | crates/fossil-hir/src/check.rs:1825-1989 | a call reports an unknown function, a needless or ill-formed tag, a wrong count or the first refused argument, and stops there |
| Checker.Expressions.SynthArgs | crates/fossil-hir/src/check.rs:1922-1964 | arguments in order up to the first that stops the call |
| Checker.Expressions.SynthBinop | crates/fossil-hir/src/check.rs:2036-2111 | left before right, then the operator; a tainted operand adds nothing |
| Checker.Expressions.SynthArith | crates/fossil-hir/src/check.rs:2115-2190 | one diagnostic per operand that is no number; division is a float, and otherwise the wider operand, unknown if either is |
| Checker.Expressions.SynthUnary | crates/fossil-hir/src/check.rs:2197-2229 | the operand, then the operator |
| Checker.Expressions.SynthTernary | crates/fossil-hir/src/check.rs:2240-2301 | a condition that is tainted or not a truth value stops the conditional; else the wider branch |
| Checker.Expressions.Compatible | crates/fossil-hir/src/check.rs:906-980 | a value passes exactly when its type fits the slot, else one diagnostic |
| Checker.Expressions.Synth | crates/fossil-hir/src/check.rs:1348-1357 | the type recorded under the expression's id, when there is one |
| Hir.CollectFieldRefs | crates/fossil-hir/src/asserts.rs:227-258 | the walk appends every bare name the expression reads, in order |
| Hir.RefsAreWithin | crates/fossil-hir/src/asserts.rs:227-258 | a name is read exactly when it stands bare somewhere in the expression |
| Hir.RefsAreInOrder | crates/fossil-hir/src/asserts.rs:227-258 | and the names come expression by expression, in the order those are written |
| Evaluation.FoldIsPartialEvaluation | crates/fossil-hir/src/asserts.rs:296-331 | what is decided is what a full evaluation, with operators of its own, gives in every row that extends the binding |
| Evaluation.FoldDecidesWhatIsSettled | crates/fossil-hir/src/asserts.rs:296-331 | and it is decided exactly when the binding settles it: every part it must read is bound or literal and every operator in it gives a value |
| Evaluation.BinopIsItsMeaning | crates/fossil-hir/src/asserts.rs:333-380 | each binary operator means what it says: the connectives, comparisons by the values' own order, exact integers kept to 64 bits, and the remainder that with some quotient makes the dividend and has its sign |
| Evaluation.UnopIsItsMeaning | crates/fossil-hir/src/asserts.rs:296-331 | so does each unary one |
| Evaluation.KnownIsItsMeaning | crates/fossil-hir/src/asserts.rs:296-331 | and each call of a text it knows: a length, and whether one text is somewhere in, begins or ends another |
| Fold.UnboundDecisionStands | crates/fossil-hir/src/asserts.rs:296-331 | what is decided with nothing bound is decided the same with anything bound |
| Fold.DecidedReadsOnlyTheField | crates/fossil-hir/src/asserts.rs:227-331 | a decided expression reads no name but the bound field, and none when nothing is bound |
| Evaluation.RefusedConstantFailsEveryRun | crates/fossil-hir/src/check.rs:438-473 | a constant refused where it is written fails its assertion, fully evaluated, in every row of every run |
| Fold.FoldIsHeld | crates/fossil-hir/src/asserts.rs:333-380 | an integer that leaves 64 bits is undecided, never wrapped |
| Fold.ComparisonsAgree | crates/fossil-hir/src/asserts.rs:333-380 | the six comparisons read one order: exactly one of less, equal, greater, and the other three their complements |
| Fold.TextOrderMirrors | crates/fossil-hir/src/asserts.rs:333-380 | swapping two texts mirrors their order |
| Fold.SwappingMirrorsComparisons | crates/fossil-hir/src/asserts.rs:333-380 | swapping the operands mirrors every comparison, decided or not, where it mirrors that of floats |
| Soundness.TypeSoundness | crates/fossil-hir/src/check.rs:1364-2301 | if the bound value inhabits its field's type, whatever the folder decides inhabits the type the checker gave |
| Soundness.OperatorSoundness | crates/fossil-hir/src/check.rs:2036-2190 | operators keep that, over known, widened and unknown operand types |
| Soundness.AcceptedIsDecided | crates/fossil-hir/src/asserts.rs:296-380 | progress: an expression over literals and one name that the checker accepts without a word is decided once that name is bound, but for integers out of range, remainders by zero and floats with no order |
| Soundness.AcceptedOperatorIsDecided | crates/fossil-hir/src/check.rs:2036-2190 | so for one accepted operator over values of its operands' types |
| Soundness.RefusedOperatorIsUndecided | crates/fossil-hir/src/check.rs:2036-2190 | and a refused connective or arithmetic operator is never decided |
| Soundness.SubtypingKeepsValues | crates/fossil-hir/src/check.rs:1135-1162 | a value of a type is a value of every type it satisfies |
| Soundness.WhatFitsASlotInhabitsIt | crates/fossil-hir/src/check.rs:906-980 | a value the checker lets into a slot, when the program alone decides it, is of the slot's type |
| Soundness.DecidedAssertionIsATruthValue | crates/fossil-hir/src/asserts.rs:120-224 | an assertion typed Bool that is decided is decided as a truth value |
| Soundness.TaintIsNeverSilent | crates/fossil-hir/src/check.rs:1307-1332 | with no error type given to it, the checker yields one only when it raised in that call |
| Soundness.TaintIsReportedOnce | crates/fossil-hir/src/check.rs:2036-2301 | a unary, binary or conditional node over an error is an error and adds no diagnostic of its own |
| Soundness.ReportsAreBounded | crates/fossil-hir/src/check.rs:1348-1357 | one `synth` reports at most twice as many diagnostics as the tree has nodes |
| Display.Writer.WriteExpr | crates/fossil-hir/src/display.rs:82-152 | the buffer grows by exactly the text of the expression |
| Display.Writer.WriteOperand | crates/fossil-hir/src/display.rs:155-167 | an operand is parenthesised exactly when it is compound |
| Display.Writer.WriteCall | crates/fossil-hir/src/display.rs:169-179 | a callee and its arguments, comma-separated |
| Display.ExprText | crates/fossil-hir/src/display.rs:76-80 | the text of an expression |
| Pipes.PipeText | crates/fossil-hir/src/display.rs:189-239 | the text of a pipeline, every stage in written order |
| Pipes.WriteOp | crates/fossil-hir/src/display.rs:192-236 | the text of a stage |
| Printed.ExprReads | crates/fossil-hir/src/display.rs:82-152 | reading a printed well-named expression back gives what the text says of it, and what followed it |
| Printed.OperandReads | crates/fossil-hir/src/display.rs:155-167 | and so for an operand |
| Printed.OpIsNamed | crates/fossil-hir/src/display.rs:42-57 | each operator's text is the token the reader's own table has for it, and no other operator's |
| Printed.EscapeReads | crates/fossil-syntax/src/name.rs:98-112 | an escaped member name reads back |
| Display.EscapedIsOneLine | crates/fossil-syntax/src/name.rs:98-112 | and it stays on one line |
| Display.BareNamesAreThese | crates/fossil-syntax/src/name.rs:30-40 | a name is written bare exactly when it is a letter or underscore, then letters, digits and underscores, and no reserved word |
| Injective.PrintAlikeIffSaySame | crates/fossil-hir/src/display.rs:1-27 | well-named trees print alike exactly when they differ at most in how string runs were cut, in a call and an edge of one name, in -n and the negation of n, and in a float and what its text says |
| Injective.TreesThatDifferPrintApart | crates/fossil-hir/src/display.rs:1-27 | where none of those pairs can occur, different trees print differently: the module's claim |
| Injective.CanonPrints | crates/fossil-hir/src/display.rs:82-152 | saying a tree again as its text says it changes no text |
| Injective.TreesThatPrintAlike | crates/fossil-hir/src/display.rs:82-152 | pairs a text does not tell apart: a string and an interpolation without holes, runs cut differently, a call and an edge, -n twice over, a float written as an integer, a float written as a name |
| Injective.BracesPrintAlike | crates/fossil-hir/src/display.rs:82-107 | an opening brace inside a string is not escaped, so a string that holds the text of a hole prints as the interpolation |
| Injective.QuotesPrintAlike | crates/fossil-hir/src/display.rs:101-107 | a quote inside a string is not escaped, so a string prints as a concatenation |
| Pipes.PipesPrintAlikeIffSaySame | crates/fossil-hir/src/display.rs:189-239 | pipelines whose column names hold neither a comma nor a closing parenthesis print alike exactly when their stages do |
| Pipes.PipesThatDifferPrintApart | crates/fossil-hir/src/display.rs:189-239 | so pipelines that differ print differently, with the same exceptions inside their expressions |
| Pipes.ColumnsPrintAlike | crates/fossil-hir/src/display.rs:197-205 | a selected column is not quoted, so one whose name holds a comma prints as two |
| Pipes.StagesPrintAlike | crates/fossil-hir/src/display.rs:197-205 | and one stage whose column's name holds a closing parenthesis prints as two stages |
| TemplateReader.Reader.SkipWs | crates/fossil-exec/src/lib.rs:1862-1866 | white space, which is Unicode's, is skipped, and only that |
| TemplateReader.Reader.PeekKw | crates/fossil-exec/src/lib.rs:1869-1884 | a keyword stands here exactly when it does as a whole word, whatever its case |
| TemplateReader.Reader.EatKw | crates/fossil-exec/src/lib.rs:1886-1893 | past it when it stands here, else only past whitespace |
| TemplateReader.Reader.ExpectKw | crates/fossil-exec/src/lib.rs:1895-1904 | an error that names it when it does not |
| TemplateReader.Reader.EatChar | crates/fossil-exec/src/lib.rs:1906-1914 | the same for a character |
| TemplateReader.Reader.Expr | crates/fossil-exec/src/lib.rs:1916-1923 | the reader's step is the grammar's, and on success the position strictly advances |
| TemplateReader.Reader.ConcatExpr | crates/fossil-exec/src/lib.rs:1925-1949 | the `||` and `IS [NOT] NULL` loop, to its end |
| TemplateReader.Reader.Primary | crates/fossil-exec/src/lib.rs:1951-2124 | a value is decided by its first character, or by its word |
| TemplateReader.Reader.TextHere | crates/fossil-exec/src/lib.rs:1979-1999 | a string to its closing quote, a doubled quote one quote |
| TemplateReader.Reader.SkipType | crates/fossil-exec/src/lib.rs:2031-2041 | a type ends at the parenthesis that closes the cast, past those it opens |
| TemplateReader.Reader.ArgsHere | crates/fossil-exec/src/lib.rs:2085-2099 | arguments separated by commas, to the closing parenthesis |
| TemplateReader.Render | crates/fossil-exec/src/lib.rs:1820-1836 | rendering is the reading of the whole template, or the error of what trails |
| TemplateLaws.TemplateRendersAsWritten | crates/fossil-exec/src/lib.rs:1838-2124 | every template of the documented grammar, with any white space, keywords in any case, any parentheses, and `OR`, `||` and the tests chained without them, is read to its end and gives its meaning; it is refused exactly where, and as, its meaning is |
| TemplateAccepts.ReadingIsTheGrammar | crates/fossil-exec/src/lib.rs:1838-2124 | a text renders to something exactly when it is a template of the grammar that means it: nothing else is accepted, and no template has two meanings |
| TemplateAccepts.ExprWasWritten | crates/fossil-exec/src/lib.rs:1916-1949 | whatever is read as an expression is one of the grammar, `OR` loosest and chains from the left, up to what is left |
| TemplateLaws.CastsRenderAsTheirTypes | crates/fossil-exec/src/lib.rs:2128-2138 | a cast to BIGINT, INTEGER, DOUBLE, BOOLEAN, DATE or a type that begins DECIMAL is one to Int64, Int32, Float64, Boolean, Date32 or Float64, and to any other is refused as that type |
| TemplateLaws.ExprReads | crates/fossil-exec/src/lib.rs:1916-1949 | an expression is read up to whatever ends it, however it is written |
| TemplateLaws.NameIsNoKeyword | crates/fossil-exec/src/lib.rs:1869-1884 | no function name but the two keywords themselves is taken for one |
| Rewrite.TransformLeavesNoneSpawning | crates/fossil-exec/src/session.rs:111-139 | after the rewrite no coalesce, buffer or repartition is left anywhere in the plan |
| Rewrite.TransformFailsIffRepartitioned | crates/fossil-exec/src/session.rs:111-139 | it fails exactly on a plan that repartitions somewhere |
| Rewrite.OneTaskIsCoalesce | crates/fossil-exec/src/session.rs:150-156 | merging in one task, limited when there was a fetch, may put out exactly what coalescing might |
| Rewrite.TransformKeepsResults | crates/fossil-exec/src/session.rs:111-139 | the rewritten plan may put out exactly what the plan might, fetches included |
| Rewrite.OneTaskIsSafeAndFaithful | crates/fossil-exec/src/session.rs:111-139 | succeeds exactly without a repartition; then nothing spawns, the root is in one partition, and the possible results are the plan's, merged when it was in several |
| Rewrite.OneTaskRunsInOnePartition | crates/fossil-exec/src/session.rs:111-139 | over an engine whose operators put out the partitions they say, whatever the rewritten plan puts out is in one |
| Rewrite.OneTaskKeepsRows | crates/fossil-exec/src/session.rs:111-139 | every result of the rewritten plan has, row for row, the rows of some result of the plan |
| Rewrite.InterleavedKeepsRows | crates/fossil-exec/src/session.rs:150-156 | merging partitions loses no row and makes none |
| Rewrite.InterleavedIsMerged | crates/fossil-exec/src/session.rs:150-156 | a merge is a choice of a partition for each row that gives every partition its rows in their order |
| Rewrite.CompactNode | crates/fossil-exec/src/memory.rs:214-228 | an operator that holds its first input holds it compacted; its kind and other inputs stay, a node that needs nothing is untouched, the node may put out what it might, and erased it is what it was |
| Rewrite.CompactIsExact | crates/fossil-exec/src/memory.rs:207-230 | compaction reaches the first input of every sort and hash join, is idempotent, keeps every possible result, and erased gives back the plan |
| Rewrite.EverySortAndHashJoinIsCompacted | crates/fossil-exec/src/memory.rs:207-230 | every sort and every hash join anywhere in a compacted plan holds a compaction first |
| Rewrite.CompactionIsPutNowhereElse | crates/fossil-exec/src/memory.rs:207-230 | and no compaction is put anywhere else |
| Rewrite.SessionPlanIsSafeAndFaithful | crates/fossil-exec/src/session.rs:73-93 | the two rules together: what runs spawns nothing, is in one partition, holds its inputs compacted, and may put out what the plan might, merged when the plan was in several partitions |
| Rewrite.SessionRunsInOnePartition | crates/fossil-exec/src/session.rs:73-93 | and whatever it puts out is in one partition |
| Memory.Budget.Grow | crates/fossil-exec/src/memory.rs:156-162 | growth saturates and never wraps |
| Memory.Budget.Shrink | crates/fossil-exec/src/memory.rs:164-170 | so does giving back |
| Memory.Budget.TryGrow | crates/fossil-exec/src/memory.rs:172-191 | granted exactly within the limit; a refusal changes no count, records what was reserved, requested and budgeted, and the first is kept |
| Memory.EveryRunIsSafe | crates/fossil-exec/src/memory.rs:117-195 | over every interleaving of steps the counter never wraps, a kept refusal never changes and was due, and once all are recorded one is kept if any request was refused |
| Memory.EveryDisciplinedRunIsAccounted | crates/fossil-exec/src/memory.rs:117-195 | when consumers only ask and give back no more than they hold, the count is the sum held and within the limit |
| Memory.TheBudgetHolds | crates/fossil-exec/src/memory.rs:117-195 | both, from the start, over every run |
| Memory.UnaskedGrowthPassesTheLimit | crates/fossil-exec/src/memory.rs:156-162 | growing without asking can pass the limit |
| Names.UniqueColumnNames | crates/fossil-exec/src/lib.rs:1383-1396 | the loop over taken names ends, and gives what the rule gives |
| Names.LongerMeetsFewer | crates/fossil-exec/src/lib.rs:1387-1390 | a candidate lengthens at every turn, so it meets ever fewer of the names taken |
| Names.NamesAreUnique | crates/fossil-exec/src/lib.rs:1383-1396 | names come out pairwise distinct ignoring case, in place, each the name given with suffixes |
| Names.NoTwoDifferInCaseAlone | crates/fossil-exec/src/lib.rs:1375-1396 | no two names come out that differ in ASCII case alone |
| Names.UniqueOnce | crates/fossil-exec/src/lib.rs:1383-1396 | a header is left alone exactly when it is already distinct, and doing it twice is doing it once |
| Names.FirstNameStands | crates/fossil-exec/src/lib.rs:1375-1382 | the first to ask for a name has it |
| Names.DocumentedHeader | crates/fossil-exec/src/lib.rs:1375-1382 | the documented header comes out as documented |
| Shapes.KeysAreOrdered | crates/fossil-graph-schema/src/shapes.rs:350-362 | the order of shapes is total and transitive, and of keys antisymmetric |
| Shapes.OrderOfShapes | crates/fossil-graph-schema/src/shapes.rs:330-362 | a shape with an IRI comes before one without, two with by IRI, two without by their predicates in order |
| Shapes.TiesAreSamePredicates | crates/fossil-graph-schema/src/shapes.rs:330-385 | two shapes tie exactly when they have one IRI, or have none and the same predicates, each as often, however listed |
| Shapes.New | crates/fossil-graph-schema/src/shapes.rs:386-416 | construction: first declarations, in order, indexed, ties reported once |
| Shapes.LookupAgreesWithSearch | crates/fossil-graph-schema/src/shapes.rs:437-439 | a lookup answers as a search of the declarations in the order given would: the first wins |
| Shapes.TiesAreRejected | crates/fossil-graph-schema/src/shapes.rs:399-409 | what is reported beside earlier rejections is exactly each pair of neighbouring kept shapes that tie, by name, and where any two tie two neighbours do |
| Shapes.BuiltOnce | crates/fossil-graph-schema/src/shapes.rs:386-416 | built again from its own shapes and rejections it is the same value |
| Shapes.OrderOfWritingIsIrrelevant | crates/fossil-graph-schema/src/shapes.rs:365-385 | two ways to write one set of shapes build one value, when no order is ambiguous |
| Declared.EveryCountIsSpelled | crates/fossil-hir/src/declared.rs:337-377 | every count a field can hold has a spelling, accepted as that count of that value |
| Declared.AcceptedIsSpelled | crates/fossil-hir/src/declared.rs:337-442 | whatever is accepted is a count a field can hold, spelled as that count is spelled, up to two bounds |
| Declared.OneSpellingPerCount | crates/fossil-hir/src/declared.rs:337-442 | two accepted types with at most two bounds mean the same count of the same value exactly when the counts are spelled alike and what they hold is one value |
| Declared.OneSpellingPerValue | crates/fossil-hir/src/declared.rs:431-505 | and what is held means the same value exactly when its names are the same |
| Declared.OneSpellingPerType | crates/fossil-hir/src/declared.rs:337-505 | where no two names mean one thing, two accepted types mean the same exactly when they are spelled alike, bounds on what is held aside |
| Declared.SeqAccepts | crates/fossil-hir/src/declared.rs:381-428 | a `Seq` is accepted exactly when its bounds are counts, possible, and not another spelling's |
| Declared.ThirdBoundIsIgnored | crates/fossil-hir/src/declared.rs:396-405 | of `seq_bounds` alone: past the second bound nothing is read but that it is a numeral; the parser hands over no third |
| Declared.HeldBoundsAreIgnored | crates/fossil-hir/src/declared.rs:431-469 | bounds on whatever a count holds are not read: there a type has other spellings, `Option<Time<Year, 3>>` for `Option<Time<Year>>` |
| Declared.ReferencesMeanTheirTypes | crates/fossil-hir/src/declared.rs:445-500 | a reference to a declared type means its IRI; a missing target, one that is no bare name, an undeclared one and one without an IRI are each refused |
| Declared.OthersMeanTheirPrimitives | crates/fossil-hir/src/declared.rs:445-505 | anything else means the primitive its names write, or is refused |
| Declared.FieldTypesAreCounts | crates/fossil-hir/src/declared.rs:337-377 | which of one, optional and sequence a field type is, and which refuse bounds, holding nothing, and holding another count |
| Declared.SeqBoundsSay | crates/fossil-hir/src/declared.rs:381-428 | what a sequence's bounds say, and the shorter spelling asked for where there is one |

## Left out

- Materialise.ExecuteGraph: when a run can fail for several causes, which of them it reports is not stated, only that what it reports is one of them.
- Vertices.UnionAll: a property one mapping spells as a list and another as a scalar is refused; the engine's coercion of other column types is not modelled.
- Checker.Expressions.SynthTy: provenance, spans, labels, help and message texts are not modelled; a diagnostic is what it is about.
- Display.Writer.WriteExpr: a float's text is any function of the float.
- Injective.PrintAlikeIffSaySame: says nothing of a text with an opening brace or an unescaped quote, of which `Injective.BracesPrintAlike` and `Injective.QuotesPrintAlike` show it false, nor of a string that ends inside an escape.
- Pipes.PipeText: the buffer is one string appended to; the intermediate vector `group_by` joins is not a separate buffer.
- Names.UniqueColumnNames: lower-casing is ASCII's.
- Memory.Budget.TryGrow: the atomic update and the lock are each one step; memory orderings weaker than that, and a poisoned lock, are not modelled.
- Rewrite.OneTaskIsSafeAndFaithful: rows merge one at a time in any order; the batches they travel in, and schema and ordering properties of a plan, are not modelled.
- Shapes.New: a shape's properties are its predicates; its other constraints are carried as they are. `to_graph_schema` and the methods of `Occurs` are easy members.
- Declared.OneSpellingPerCount: the primitives a name and a parameter write are a parameter, settled in the source by enumeration.
- Evaluation.FoldIsPartialEvaluation: floating-point arithmetic is any arithmetic with its own partial order; IEEE rounding and NaN are whatever it says.
- Language-tagged property values (the split of a tagged value into two columns), graph-schema annotations and the sources a table was derived from.
- A column or property named as the subject column, and repeated column names inside one relation.
- CSV and JSON reading, `LeadingZeros`, schema inference, object stores, credentials, storage and the host bindings.
- Parsing, lowering and the registries that memoise them; did-you-mean suggestions; the problem catalogue.
- The overflow of a sum of row counts past 64 bits.
