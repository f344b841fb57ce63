# Bundestag scraper and enrichment, modelled in Dafny

This project models the logic of a Python system with three parts. Scrapy spiders read German Bundestag member lists from Wikipedia. A pipeline merges the records they yield into a Neo4j graph. Scripts then enrich the politicians' biographies with an LLM. Everything here is a model of that logic plus proofs about it; nothing here runs.

The model follows the source file by file, one Dafny module per Python module:

- `identity.dfy` (`Identity`): `normalize_party_name`, the party alias table, and the texts that `_mandate_id` and the Content id hash.
- `graph_store.dfy` (`GraphStore`): the graph as node maps and a set of typed edges. It gives Cypher statements (`MERGE … ON CREATE SET … ON MATCH SET coalesce(…)` and `MATCH`-guarded `MERGE` of edges) as data, with `Apply` and `RunAll` giving their effect.
- `pipeline_plans.dfy` (`PipelinePlans`): each write helper of `Neo4jPipeline` (`_ensure_page`, `_dom`, `_page`, `_merge_page`, `_period`, `_politician`, `_content`) as the list of statements it runs, or the error it raises first. Also `process_item`'s dispatch and the write transaction.
- `pipeline.dfy` (`Pipeline`): the class `Neo4jPipeline`, whose store its methods update in place.
- `pipeline_properties.dfy`, `pipeline_politician.dfy` and `pipeline_items.dfy`: what each helper writes. They cover fill-if-absent against create-only fields, the `MATCH`-guarded edges, idempotence and monotonicity, and the order dependence between records.
- `base_spider.dfy` (`BaseSpider`): `SourceMixin` as a class with its `seen_domains` set and `validate_item`.
- `politician_spider.dfy`, `legislative_period_spider.dfy` and `politician_content_spider.dfy`: the three spiders' `parse` logic, over pages given as sequences of elements.
- `h2_count_spider.dfy`, `counts.dfy` and `sort_counts.dfy`: the heading counter (a counter over keys of any type, which the header tally of `filter_education_content.dfy` uses too) and the stable sort by descending count.
- `embedding_retrieval.dfy`, `text_to_dqr.dfy`, `filter_education_content.dfy` and `bio_sections.dfy`: the enrichment text utilities.
- `llm_enrichment_process_final.dfy` (`LlmEnrichment`): batch slicing, the top-5 join, per-batch success and error accounting, and the files and checkpoint a batch saves.
- `pystr.dfy` (`PyStr`), `items.dfy` (`Items`) and `wrappers.dfy`: Python string built-ins, Scrapy records as maps from field name to optional string, and Option and Result.

Several things are parameters of the model rather than parts of it:

- the SHA-1 digest: `sha1: string -> string`;
- `urlparse(url).netloc`;
- `response.urljoin`;
- `count_tokens`;
- the LLM and embedding calls.

A write helper that raises (a `KeyError`, or a `MERGE` on a null key) raises before the transaction commits, and the rollback leaves the graph as it was. The code does not always raise before its first statement: `_content` runs `_ensure_page` (`bundestags_scraper/pipelines.py:326`) before it reads `section_content` (`bundestags_scraper/pipelines.py:338`). The model computes a helper's statements from the record first and fails before running any of them. Because of the rollback, the end state is the same.

Notes on what the code does:

- There is no batching layer and no item router beyond `process_item`'s `isinstance` chain. Each record gets its own session and transaction (`bundestags_scraper/pipelines.py:86-99`).
- Writing the same records in either order does not give the same graph. `PipelineItems.PoliticianThenPeriod` shows a Politician written before its Period never gets SERVED_DURING.
- `create_or_load_batches` slices `data[i:i+batch_size]`. A batch size of 0 raises and a negative one gives no batch.

## Model

| member | source | states |
|---|---|---|
| Identity.MandateKey | bundestags_scraper/pipelines.py:14-16 | the hashed text is the period number, one '#', then the politician URL, with each part recoverable by position |
| Identity.KeySplit | bundestags_scraper/pipelines.py:15 | when the period part has no '#', the first '#' of the key sits exactly after it |
| Identity.MandateKeyInjective | bundestags_scraper/pipelines.py:14-16 | two (period, politician) pairs whose periods have no '#' give the same Mandate key only if they are the same pair, so distinct mandates never share an id |
| Identity.PyFormat | bundestags_scraper/pipelines.py:323 | an f-string shows a present value as itself and None as the text "None" |
| Identity.ContentKeyConflatesNone | bundestags_scraper/pipelines.py:322-324 | a missing section header and the header text "None" give the same Content id on the same page |
| Identity.ContentKeyInjective | bundestags_scraper/pipelines.py:322-324 | Content ids of two sections are equal only if the pages are the same and the headers format alike, for URLs with no '#' |
| Identity.AliasTargets | bundestags_scraper/pipelines.py:18-53 | every alias maps to one of the eight canonical party names |
| Identity.CanonicalPartiesAreFixed | bundestags_scraper/pipelines.py:18-57 | each canonical party name is stripped, non-empty and normalises to itself |
| Identity.AliasFacts | bundestags_scraper/pipelines.py:18-53 | an alias maps to a canonical party name that carries no surrounding whitespace and that the table leaves alone |
| Identity.NormalizePartyName | bundestags_scraper/pipelines.py:55-57 | the result is stripped and already normal; a falsy name gives ""; an unknown name passes through stripped; a known alias, after stripping any surrounding whitespace, gives exactly the name the alias table maps it to, which is a canonical party |
| Identity.NormalizeIdempotent | bundestags_scraper/pipelines.py:55-57 | normalising a normalised name changes nothing |
| Identity.GreensLabelsAliased | bundestags_scraper/pipelines.py:27-32 | each of the five Greens labels is in the table and maps to "Bündnis 90/Die Grünen" |
| Identity.NormalizeAlias | bundestags_scraper/pipelines.py:55-57 | an alias, bare or padded with spaces, normalises to the name the table gives it |
| Identity.GreensVariants | bundestags_scraper/pipelines.py:27-32 | every Greens label, bare or padded, normalises to the one party name |
| Identity.NormalizeUnknown | bundestags_scraper/pipelines.py:57 | a non-empty name the table lacks, bare or padded, comes back as the bare name |
| GraphStore.Coalesce | bundestags_scraper/pipelines.py:121 | `coalesce` keeps a value already set and takes the incoming one only when the property is null |
| GraphStore.RunAllConcat | bundestags_scraper/pipelines.py:86-99 | running two statement lists in one transaction is running the first, then the second on its result |
| GraphStore.RunAllSingle | bundestags_scraper/pipelines.py:114-125 | a one-statement list has exactly that statement's effect |
| GraphStore.ExtendsTrans | bundestags_scraper/pipelines.py:117-122 | "the graph only grows" composes: growth upon growth is growth |
| GraphStore.ExtendsPresent | bundestags_scraper/pipelines.py:117-122 | a node present before a growth step is present after it |
| GraphStore.ExtendsRefl | bundestags_scraper/pipelines.py:117-122 | a graph extends itself, so a no-op write keeps every node |
| GraphStore.ExtendsPage | bundestags_scraper/pipelines.py:119-121 | a Page `MERGE` removes no node, no edge and no property already set |
| GraphStore.ExtendsPolitician | bundestags_scraper/pipelines.py:204-207 | a Politician `MERGE` removes nothing and never overwrites a set property |
| GraphStore.ExtendsMandate | bundestags_scraper/pipelines.py:261-267 | a Mandate `MERGE` removes nothing and fills only null party, state and constituency |
| GraphStore.ExtendsContent | bundestags_scraper/pipelines.py:331-334 | a Content `MERGE` removes nothing and fills only a null section content |
| GraphStore.ApplyExtends | bundestags_scraper/pipelines.py:114-125 | no statement the pipeline runs deletes a node, an edge or a set property |
| GraphStore.RunAllExtends | bundestags_scraper/pipelines.py:86-99 | no transaction deletes a node, an edge or a set property |
| GraphStore.ApplyValid | bundestags_scraper/pipelines.py:117-122 | each statement keeps every edge between present nodes of the right labels |
| GraphStore.RunAllValid | bundestags_scraper/pipelines.py:86-99 | every transaction keeps edges between present nodes of the right labels |
| GraphStore.CreatedAllConcat | bundestags_scraper/pipelines.py:86-99 | the nodes two lists merge are those of each list together |
| GraphStore.LabelsConcat | bundestags_scraper/pipelines.py:86-99 | the labels, parties, states and constituencies two lists merge are those of each list together |
| GraphStore.PartiesConcat | bundestags_scraper/pipelines.py:290 | the Party names two lists merge are those of each list together |
| GraphStore.StatesConcat | bundestags_scraper/pipelines.py:300 | the State names two lists merge are those of each list together |
| GraphStore.ConstituenciesConcat | bundestags_scraper/pipelines.py:310 | the Constituency names two lists merge are those of each list together |
| GraphStore.ApplyFrame | bundestags_scraper/pipelines.py:117-122 | a statement changes only the node map of its own label, adds exactly its Party, State and Constituency names, and adds only its own edges |
| GraphStore.RunAllFrame | bundestags_scraper/pipelines.py:86-99 | a transaction leaves the node map of every label it never merges as it was, and adds exactly the Party, State and Constituency names it merges |
| GraphStore.EdgesOfConcat | bundestags_scraper/pipelines.py:86-99 | the edges two lists may add are those of each list together |
| GraphStore.RunAllEdges | bundestags_scraper/pipelines.py:86-99 | the only new edges after a transaction are those of its edge statements |
| GraphStore.ApplyCreates | bundestags_scraper/pipelines.py:117-119 | after a `MERGE` its node is present |
| GraphStore.ApplyAbsent | bundestags_scraper/pipelines.py:220-222 | a `MATCH`-guarded statement never creates a node, so a node it does not merge stays absent |
| GraphStore.RunAllAbsent | bundestags_scraper/pipelines.py:220-222 | a node absent before and merged by no statement is absent after the transaction |
| GraphStore.GuardedByConcat | bundestags_scraper/pipelines.py:86-99 | an edge guarded by a node in two statement lists is guarded by it in their concatenation |
| GraphStore.ApplyGuarded | bundestags_scraper/pipelines.py:276-281 | a MATCH-guarded edge statement whose MATCH needs an absent node leaves that edge as it was |
| GraphStore.RunAllGuarded | bundestags_scraper/pipelines.py:86-99 | a transaction that never merges an absent node leaves every edge guarded by that node as it was |
| GraphStore.RunAllCreates | bundestags_scraper/pipelines.py:117-119 | every node a transaction merges is present after it |
| GraphStore.WellOrderedConcat | bundestags_scraper/pipelines.py:86-99 | a list whose edge statements each follow the merges they need stays so when a second such list follows it |
| GraphStore.WellOrderedWeaken | bundestags_scraper/pipelines.py:86-99 | more nodes known present keeps a list well ordered |
| GraphStore.SettledNoop | bundestags_scraper/pipelines.py:111 | a statement whose effect is already there changes nothing |
| GraphStore.ApplySettles | bundestags_scraper/pipelines.py:111 | after a node `MERGE` its repetition changes nothing; after an edge statement whose endpoints exist its edges are present |
| GraphStore.SettledExtends | bundestags_scraper/pipelines.py:111 | a node `MERGE` settled in a graph stays settled in every graph that extends it |
| GraphStore.RunAllSettled | bundestags_scraper/pipelines.py:111 | a list of settled statements changes nothing |
| GraphStore.RunAllSettles | bundestags_scraper/pipelines.py:111 | after a well-ordered transaction each of its statements is settled |
| GraphStore.RunAllIdempotent | bundestags_scraper/pipelines.py:109-112 | a transaction whose edge statements each follow the merges they need gives the same graph when run twice, so "MERGE is idempotent" holds for it |
| GraphStore.ConsSets | bundestags_scraper/pipelines.py:86-99 | the merged nodes, labels, names and edges of a list are those of its first statement plus those of the rest |
| GraphStore.ConsOrder | bundestags_scraper/pipelines.py:86-99 | a list is well ordered exactly when its first statement is and the rest is, given what the first merges |
| GraphStore.Cons | bundestags_scraper/pipelines.py:86-99 | both of the above at once |
| GraphStore.RunAllCons | bundestags_scraper/pipelines.py:86-99 | a transaction runs its first statement, then the rest |
| GraphStore.NeedsOne | bundestags_scraper/pipelines.py:220-222 | a one-edge statement needs exactly its two endpoints |
| GraphStore.NeedsTwo | bundestags_scraper/pipelines.py:277-281 | the two-edge Mandate statement needs exactly the four endpoints |
| GraphStore.EdgeStep | bundestags_scraper/pipelines.py:185-187 | a `MATCH … MATCH … MERGE` edge statement changes only the edges; it adds all its edges when every endpoint exists and nothing otherwise |
| GraphStore.EdgeAdded | bundestags_scraper/pipelines.py:185-187 | an edge statement whose two endpoints exist adds its edge |
| GraphStore.RunAllEdgesGrow | bundestags_scraper/pipelines.py:86-99 | no transaction removes an edge |
| PipelinePlans.Field | bundestags_scraper/pipelines.py:165 | `item[k]` succeeds exactly when the field is in the record, with its value, and raises `KeyError(k)` otherwise |
| PipelinePlans.MergeKey | bundestags_scraper/pipelines.py:163 | a `MERGE` key is accepted exactly when it is not null, and is then that value |
| PipelinePlans.MandateParty | bundestags_scraper/pipelines.py:196-198 | the party is present exactly when the raw party is truthy, and is then its normalised name |
| PipelinePlans.Transact | bundestags_scraper/pipelines.py:88-98 | a transaction whose helper raises fails with that error and no write; otherwise every statement runs in order |
| Pipeline.Neo4jPipeline.constructor | bundestags_scraper/pipelines.py:64-66 | a pipeline starts on the store it is given, with the digest and netloc functions as its parameters |
| Pipeline.Neo4jPipeline.Run | bundestags_scraper/pipelines.py:114 | `tx.run` applies one statement to the store |
| Pipeline.Neo4jPipeline.WriteTransaction | bundestags_scraper/pipelines.py:90 | `write_transaction` commits all the helper's statements in order, or, when the helper raises, leaves the store as it was and passes the error on |
| Pipeline.Neo4jPipeline.ProcessItem | bundestags_scraper/pipelines.py:86-99 | the record's class picks the helper; on success the record comes back unchanged; on error the store is untouched; in every case the store only grows and stays well formed |
| Pipeline.ProcessTwice | bundestags_scraper/pipelines.py:86-99 | handing the same record over twice gives the store one hand-over gives, or the same error twice with no write |
| PipelineProperties.EnsurePageEffect | bundestags_scraper/pipelines.py:108-125 | after `_ensure_page` the Domain named by the URL's host, the Page and their BELONGS_TO_DOMAIN edge exist; a Domain is created bare only when missing; the Page's title is filled only when null and its html set only on creation; no other node changes |
| PipelineProperties.EnsurePageCreates | bundestags_scraper/pipelines.py:117-122 | `_ensure_page` merges exactly the Domain and the Page and may add only their BELONGS_TO_DOMAIN edge |
| PipelineProperties.EnsurePageOrdered | bundestags_scraper/pipelines.py:117-122 | the edge in `_ensure_page` comes after the two merges it needs, so running it twice is running it once |
| PipelineProperties.DomFails | bundestags_scraper/pipelines.py:129-134 | `_dom` raises exactly on a missing or null `domain`, `KeyError` when it is missing |
| PipelineProperties.DomEffect | bundestags_scraper/pipelines.py:129-134 | `_dom` creates a missing Domain with its description and leaves an existing one, description included, as it was |
| PipelineProperties.PageFails | bundestags_scraper/pipelines.py:138-150 | `_page` raises exactly when `url` or `source_domain` is missing or `url` is null |
| PipelineProperties.PageEffect | bundestags_scraper/pipelines.py:138-150 | `_page` always merges the Page, filling a null title and a null html; it adds the BELONGS_TO_DOMAIN edge exactly when the named Domain is already there, adds no other edge, and changes no other node |
| PipelineProperties.PageTitleFilledLater | bundestags_scraper/pipelines.py:141-143 | a Page first written without a title gets the title a later record brings |
| PipelineProperties.MergePageFails | bundestags_scraper/pipelines.py:153-156 | `_merge_page` raises exactly on a missing or null `url` and is otherwise `_ensure_page` with the record's title and html |
| PipelineProperties.PeriodFails | bundestags_scraper/pipelines.py:160-167 | `_period` raises exactly when one of its four fields is missing or the period number is null |
| PipelineProperties.PageBlockConcat | bundestags_scraper/pipelines.py:108-125 | two lists that merge only pages and domains together merge only pages and domains |
| PipelineProperties.PageBlockEdges | bundestags_scraper/pipelines.py:171-179 | an edge statement merges no node |
| PipelineProperties.EnsurePageBlock | bundestags_scraper/pipelines.py:108-125 | `_ensure_page` merges only a page and a domain |
| PipelineProperties.PageBlockPage | bundestags_scraper/pipelines.py:173 | a Page `MERGE` merges only a page |
| PipelineProperties.PeriodSourceFacts | bundestags_scraper/pipelines.py:169-179 | the source-page part of `_period` merges only pages and domains, follows the Period merge, and links an existing Period to a truthy source page |
| PipelineProperties.PeriodSourceShape | bundestags_scraper/pipelines.py:169-179 | the source-page part merges only pages and domains, and its edge statements follow the merges they need |
| PipelineProperties.PeriodSourceBlock | bundestags_scraper/pipelines.py:169-179 | a present source page part merges only pages and domains |
| PipelineProperties.PeriodSourceOrdered | bundestags_scraper/pipelines.py:169-179 | a present source page part is well ordered after the Period merge |
| PipelineProperties.PeriodSourceEffect | bundestags_scraper/pipelines.py:169-179 | with the Period present, the source Page exists afterwards and HAS_SOURCE_PAGE links the Period to it |
| PipelineProperties.PeriodDetailFacts | bundestags_scraper/pipelines.py:181-190 | the detail-page part merges only pages and domains, follows the Period merge, and links an existing Period to a truthy detail page |
| PipelineProperties.PeriodDetailBlock | bundestags_scraper/pipelines.py:181-190 | a present detail page part merges only pages and domains |
| PipelineProperties.PeriodDetailOrdered | bundestags_scraper/pipelines.py:181-190 | a present detail page part is well ordered after the Period merge |
| PipelineProperties.PeriodDetailEffect | bundestags_scraper/pipelines.py:181-190 | with the Period present, the detail Page exists afterwards and HAS_DETAIL_PAGE links the Period to it |
| PipelineProperties.PeriodPlanStatements | bundestags_scraper/pipelines.py:160-190 | once the fields are read, `_period` runs the Period merge, then the source part, then the detail part |
| PipelineProperties.PeriodBlocks | bundestags_scraper/pipelines.py:168-190 | both page parts of `_period` merge only pages and domains |
| PipelineProperties.PeriodDecompose | bundestags_scraper/pipelines.py:160-190 | `_period`'s effect is the Period merge followed by the two page parts |
| PipelineProperties.PeriodNodeEffect | bundestags_scraper/pipelines.py:162-167 | `_period` creates a missing Period with name and dates and never changes an existing one; Politicians, Mandates and Contents stay as they were |
| PipelineProperties.PeriodEdgeEffect | bundestags_scraper/pipelines.py:168-190 | after `_period`, a truthy source page and a truthy detail page exist and are linked to the Period |
| PipelineProperties.PeriodOrdered | bundestags_scraper/pipelines.py:160-190 | every edge statement of `_period` follows the merges it needs, so the transaction is idempotent |
| PoliticianWrites.LinkedPageFacts | bundestags_scraper/pipelines.py:216-234 | `_ensure_page(url)` followed by an edge from its owner merges exactly the page and its domain, is well ordered, and leaves the page and the edge when the owner exists |
| PoliticianWrites.LinkedPageBlock | bundestags_scraper/pipelines.py:216-234 | that pair merges only the page and its domain |
| PoliticianWrites.LinkedPageCreated | bundestags_scraper/pipelines.py:216-234 | that pair merges exactly the page and its domain |
| PoliticianWrites.LinkedPageOrdered | bundestags_scraper/pipelines.py:216-234 | that pair's edge follows the merges it needs |
| PoliticianWrites.LinkedPageEffect | bundestags_scraper/pipelines.py:216-234 | with the owner present, the page, its domain and the owner's edge to the page exist afterwards |
| PoliticianWrites.TagFacts | bundestags_scraper/pipelines.py:287-316 | a tag statement merges exactly its Party, State or Constituency, adds it to that name set, is well ordered after the Mandate, and adds its edge when the Mandate exists |
| PoliticianWrites.TagShape | bundestags_scraper/pipelines.py:287-316 | a tag statement merges exactly its tag node and adds exactly its name |
| PoliticianWrites.TagOrdered | bundestags_scraper/pipelines.py:287-316 | a tag statement's edge follows the Mandate merge |
| PoliticianWrites.TagEffect | bundestags_scraper/pipelines.py:290-293 | with the Mandate present, the tag edge exists afterwards |
| PoliticianWrites.PoliticianFails | bundestags_scraper/pipelines.py:195-212 | `_politician` raises exactly when one of `source_page`, `detail_page`, `political_party`, `full_name` is missing or `detail_page` is null; the first missing field names the `KeyError` |
| PoliticianWrites.PoliticianPlanStatements | bundestags_scraper/pipelines.py:194-316 | once the fields are read, `_politician` runs the Politician merge, the page block, then the period block |
| PoliticianWrites.PagesSplit | bundestags_scraper/pipelines.py:214-243 | the page block is the source part, the detail part, then the link part |
| PoliticianWrites.PagesShape | bundestags_scraper/pipelines.py:214-243 | the page block merges only pages and domains and its edges follow the merges they need |
| PoliticianWrites.PagesBlock | bundestags_scraper/pipelines.py:214-243 | the page block merges only pages and domains |
| PoliticianWrites.PagesOrdered | bundestags_scraper/pipelines.py:214-243 | the page block's edges follow the Politician merge and their pages' merges |
| PoliticianWrites.SourceBlockEffect | bundestags_scraper/pipelines.py:216-225 | a truthy source page exists afterwards with HAS_SOURCE_PAGE from the Politician; the Politician stays |
| PoliticianWrites.DetailBlockEffect | bundestags_scraper/pipelines.py:226-234 | the detail Page, its Domain and HAS_DETAIL_PAGE from the Politician exist afterwards |
| PoliticianWrites.LinkBlockEffect | bundestags_scraper/pipelines.py:235-243 | with both pages present, a truthy source page gets LINKS_TO_DETAIL to the detail page |
| PoliticianWrites.PagesEffect | bundestags_scraper/pipelines.py:214-243 | with the Politician present, the detail page with HAS_DETAIL_PAGE exists afterwards, and a truthy source page with HAS_SOURCE_PAGE and LINKS_TO_DETAIL |
| PoliticianWrites.MandateSplit | bundestags_scraper/pipelines.py:257-316 | the Mandate block is its merge and links, then the three tag parts |
| PoliticianWrites.PartyBlockFacts | bundestags_scraper/pipelines.py:287-296 | the Party part merges only the normalised party, is well ordered after the Mandate, and adds AFFILIATED_WITH when the Mandate exists |
| PoliticianWrites.PartyBlockShape | bundestags_scraper/pipelines.py:287-296 | the Party part merges only the party, exactly when it is given |
| PoliticianWrites.StateBlockFacts | bundestags_scraper/pipelines.py:297-306 | the State part merges only a truthy state, is well ordered, and adds REPRESENTS_STATE when the Mandate exists |
| PoliticianWrites.StateBlockShape | bundestags_scraper/pipelines.py:297-306 | the State part merges only the state, exactly when it is truthy |
| PoliticianWrites.ConstituencyBlockFacts | bundestags_scraper/pipelines.py:307-316 | the Constituency part merges only a truthy constituency, is well ordered, and adds REPRESENTS_CONSTITUENCY when the Mandate exists |
| PoliticianWrites.ConstituencyBlockShape | bundestags_scraper/pipelines.py:307-316 | the Constituency part merges only the constituency, exactly when it is truthy |
| PoliticianWrites.MandateHeadFacts | bundestags_scraper/pipelines.py:259-284 | the Mandate merge and its link statement merge exactly the Mandate and need only the Politician, the Period and the Mandate |
| PoliticianWrites.MandateStep | bundestags_scraper/pipelines.py:261-267 | the Mandate merge changes only that Mandate, to its merged value |
| PoliticianWrites.MandateHeadEffect | bundestags_scraper/pipelines.py:259-284 | the Mandate's null fields are filled and set ones kept; HAS_MANDATE and IN_PERIOD exist afterwards when Politician and Period both do |
| PoliticianWrites.TagBlocksLabels | bundestags_scraper/pipelines.py:286-316 | the tag parts merge only Party, State and Constituency nodes |
| PoliticianWrites.TagBlocksNames | bundestags_scraper/pipelines.py:286-316 | the tag parts merge exactly the given party, the truthy state and the truthy constituency |
| PoliticianWrites.TagBlocksParties | bundestags_scraper/pipelines.py:287-296 | the tag parts merge exactly the given party |
| PoliticianWrites.TagBlocksStates | bundestags_scraper/pipelines.py:297-306 | the tag parts merge exactly the truthy state |
| PoliticianWrites.TagBlocksConstituencies | bundestags_scraper/pipelines.py:307-316 | the tag parts merge exactly the truthy constituency |
| PoliticianWrites.MandateShape | bundestags_scraper/pipelines.py:257-316 | the Mandate block merges only the Mandate and its tags, and exactly the given tag names |
| PoliticianWrites.MandateLabels | bundestags_scraper/pipelines.py:257-316 | the Mandate block merges only the Mandate and tag nodes |
| PoliticianWrites.MandateNames | bundestags_scraper/pipelines.py:257-316 | the Mandate block merges exactly the given party, state and constituency names |
| PoliticianWrites.MandatePartyNames | bundestags_scraper/pipelines.py:287-296 | the Mandate block merges exactly the given party |
| PoliticianWrites.MandateStateNames | bundestags_scraper/pipelines.py:297-306 | the Mandate block merges exactly the truthy state |
| PoliticianWrites.MandateConstituencyNames | bundestags_scraper/pipelines.py:307-316 | the Mandate block merges exactly the truthy constituency |
| PoliticianWrites.MandateHeadNames | bundestags_scraper/pipelines.py:259-284 | the Mandate merge and link merge no tag |
| PoliticianWrites.MandateOrdered | bundestags_scraper/pipelines.py:257-316 | every edge of the Mandate block follows the merges it needs, apart from the record's Period |
| PoliticianWrites.TagBlocksEffect | bundestags_scraper/pipelines.py:286-316 | with the Mandate present, each given tag is linked to it afterwards |
| PoliticianWrites.TagBlocksKeepMandate | bundestags_scraper/pipelines.py:286-306 | the Party and State parts keep the Mandate for the parts after them |
| PoliticianWrites.MandateEffect | bundestags_scraper/pipelines.py:257-316 | the Mandate block fills only null Mandate fields, links it to Politician and Period when both exist, and to every given tag; nothing is removed |
| PoliticianWrites.MandateEffectMandate | bundestags_scraper/pipelines.py:261-267 | after the Mandate block, the Mandate holds its merged value and every other Mandate is as it was |
| PoliticianWrites.MandateEffectLinks | bundestags_scraper/pipelines.py:275-284 | with Politician and Period present, HAS_MANDATE and IN_PERIOD exist afterwards |
| PoliticianWrites.MandateEffectTags | bundestags_scraper/pipelines.py:286-316 | every given tag is linked to the Mandate afterwards |
| PoliticianWrites.PeriodPartSplit | bundestags_scraper/pipelines.py:246-284 | with a truthy period number the period block is SERVED_DURING, then the Mandate block keyed by `_mandate_id` |
| PoliticianWrites.PeriodPartShape | bundestags_scraper/pipelines.py:246-316 | the period block merges only the Mandate and its tags |
| PoliticianWrites.PeriodPartNames | bundestags_scraper/pipelines.py:246-316 | with a truthy period number, the period block merges exactly the normalised truthy party and the truthy state and constituency; without one it merges none |
| PoliticianWrites.PeriodPartOrdered | bundestags_scraper/pipelines.py:246-316 | the period block's edges follow the Politician merge and their own merges, apart from the record's Period |
| PoliticianWrites.PeriodPartFrame | bundestags_scraper/pipelines.py:246-316 | the period block changes no Domain, Page, Period, Politician or Content |
| PoliticianWrites.PeriodPartEffect | bundestags_scraper/pipelines.py:246-316 | without a truthy period number nothing happens; with one the Mandate fills its null fields, and SERVED_DURING, HAS_MANDATE and IN_PERIOD exist when the Period does, and each truthy tag is linked |
| PoliticianWrites.PeriodPartRun | bundestags_scraper/pipelines.py:246-254 | the period block runs SERVED_DURING, which changes only edges and adds its edge when Politician and Period exist, then the Mandate block |
| PoliticianWrites.PeriodPartMandate | bundestags_scraper/pipelines.py:246-284 | with the Politician present and a truthy number, the Mandate holds its merged value and, when the Period exists, all three period edges exist |
| PoliticianWrites.PeriodPartTags | bundestags_scraper/pipelines.py:286-316 | with a truthy number, each truthy tag is linked to the Mandate, the party under its normalised name |
| PoliticianWrites.PoliticianDecompose | bundestags_scraper/pipelines.py:194-316 | `_politician`'s effect is the Politician merge, then the page block, then the period block |
| PoliticianWrites.PoliticianMerged | bundestags_scraper/pipelines.py:202-212 | the Politician merge changes only that Politician, to its merged value |
| PoliticianWrites.PoliticianRunSplit | bundestags_scraper/pipelines.py:194-316 | the same split in terms of the statement lists |
| PoliticianWrites.PagesFrame | bundestags_scraper/pipelines.py:214-243 | the page block changes no Politician, Period, Mandate, Content, Party, State or Constituency |
| PoliticianWrites.PoliticianNodeEffect | bundestags_scraper/pipelines.py:202-212 | `_politician` creates a missing Politician with all its fields, fills only a null full name on an existing one, and changes no Period and no Content |
| PoliticianWrites.PoliticianPageEffect | bundestags_scraper/pipelines.py:214-243 | after `_politician`, the detail page with HAS_DETAIL_PAGE exists, and a truthy source page with HAS_SOURCE_PAGE and LINKS_TO_DETAIL |
| PoliticianWrites.PoliticianMandateEffect | bundestags_scraper/pipelines.py:256-316 | with a truthy period number `_politician` fills the null fields of that period's Mandate and merges and links each truthy tag; without one no Mandate and no tag changes; the name sets grow by exactly those tags |
| PoliticianWrites.PoliticianCreates | bundestags_scraper/pipelines.py:194-316 | `_politician` merges no Period and no Content |
| PoliticianWrites.PoliticianOrdered | bundestags_scraper/pipelines.py:194-316 | every edge of `_politician` follows the merges it needs, apart from the record's Period, which it never merges |
| PoliticianWrites.LinkedPageGuarded | bundestags_scraper/pipelines.py:214-231 | the statements linking a page never write an edge into a Mandate |
| PoliticianWrites.TagPlanGuarded | bundestags_scraper/pipelines.py:286-316 | an optional Party, State or Constituency block writes no HAS_MANDATE edge other than its own |
| PoliticianWrites.PagesGuarded | bundestags_scraper/pipelines.py:213-243 | the page statements of `_politician` write no edge into a Mandate |
| PoliticianWrites.HasMandateGuarded | bundestags_scraper/pipelines.py:275-284 | in `_politician`, every statement that may write the HAS_MANDATE edge matches the Period first |
| PoliticianWrites.PoliticianPeriodLinks | bundestags_scraper/pipelines.py:246-284 | SERVED_DURING and IN_PERIOD exist after `_politician` exactly when the Period was written before; HAS_MANDATE then exists too, and without the Period it is present after exactly when it was before |
| PoliticianWrites.PoliticianIdempotent | bundestags_scraper/pipelines.py:194-316 | writing the same politician record twice gives the graph writing it once gives |
| PoliticianWrites.ContentFails | bundestags_scraper/pipelines.py:321-339 | `_content` raises exactly when `source_page`, `section_header` or `section_content` is missing or the URL is null; a null URL fails the Page `MERGE` |
| PoliticianWrites.ContentPlanStatements | bundestags_scraper/pipelines.py:321-359 | once the fields are read, `_content` runs `_ensure_page` on the URL, the Content merge and its two edges, keyed by the hashed id |
| PoliticianWrites.ContentSplit | bundestags_scraper/pipelines.py:326-359 | `_content` is `_ensure_page`, then its Content part |
| PoliticianWrites.ContentCreates | bundestags_scraper/pipelines.py:321-359 | `_content` merges exactly the Domain, the Page and the Content |
| PoliticianWrites.ContentTailShape | bundestags_scraper/pipelines.py:329-359 | the Content part merges exactly the Content |
| PoliticianWrites.ContentOrdered | bundestags_scraper/pipelines.py:321-359 | every edge of `_content` follows the merges it needs, apart from the Politician, which it never merges |
| PoliticianWrites.ContentTailEffect | bundestags_scraper/pipelines.py:329-359 | with the Page present, the Content part changes only the Content and the edges, adds HAS_SOURCE_PAGE, and adds HAS_CONTENT when the Politician exists |
| PoliticianWrites.ContentEffect | bundestags_scraper/pipelines.py:321-359 | `_content` fills only a null section text, leaves the Page and HAS_SOURCE_PAGE, adds HAS_CONTENT when the Politician exists, and changes no Politician, Period or Mandate |
| PoliticianWrites.ContentLinks | bundestags_scraper/pipelines.py:351-359 | in a well formed graph, HAS_CONTENT exists afterwards exactly when the Politician whose detail page is the URL was written before |
| PoliticianWrites.ContentIdempotent | bundestags_scraper/pipelines.py:321-359 | writing the same content record twice gives the graph writing it once gives |
| PipelineItems.DomIdempotent | bundestags_scraper/pipelines.py:129-134 | writing a domain record twice gives the graph writing it once gives |
| PipelineItems.PageIdempotent | bundestags_scraper/pipelines.py:138-150 | writing a page record twice gives the graph writing it once gives, although its edge needs a Domain `_page` never merges |
| PipelineItems.PeriodIdempotent | bundestags_scraper/pipelines.py:160-190 | writing a period record twice gives the graph writing it once gives |
| PipelineItems.ItemIdempotent | bundestags_scraper/pipelines.py:86-99 | `process_item` twice on the same record leaves the graph one call leaves |
| PipelineItems.ItemGrows | bundestags_scraper/pipelines.py:86-99 | `process_item` succeeds exactly when the helper reads its record without error; a successful one only grows the graph and keeps it well formed |
| PipelineItems.BiographyWritesNothing | bundestags_scraper/pipelines.py:89-98 | a `PoliticianBiography` record matches no branch and writes nothing |
| PipelineItems.PeriodSourceEdges | bundestags_scraper/pipelines.py:169-179 | the source part of `_period` may add exactly BELONGS_TO_DOMAIN and HAS_SOURCE_PAGE for a truthy page, and nothing otherwise |
| PipelineItems.PeriodDetailEdges | bundestags_scraper/pipelines.py:181-190 | the detail part of `_period` may add exactly BELONGS_TO_DOMAIN and HAS_DETAIL_PAGE for a truthy page, and nothing otherwise |
| PipelineItems.PeriodEdgeRels | bundestags_scraper/pipelines.py:160-190 | `_period` adds only BELONGS_TO_DOMAIN, HAS_SOURCE_PAGE and HAS_DETAIL_PAGE edges, never SERVED_DURING |
| PipelineItems.PeriodThenPolitician | bundestags_scraper/pipelines.py:246-254 | a Period written before a Politician of that period gets SERVED_DURING |
| PipelineItems.PoliticianThenPeriod | bundestags_scraper/pipelines.py:160-190 | a Politician written before a Period that did not exist yet never gets SERVED_DURING, though the Period then exists |
| PipelineItems.OneMandatePerPeriod | bundestags_scraper/pipelines.py:256-273 | two politician records with the same detail page and period add exactly one Mandate, whatever their other fields |
| PipelineItems.PeriodRecordWrites | bundestags_scraper/pipelines.py:160-190 | a period record with a source page, written to an empty graph, leaves just that Period plus pages and domains |
| PipelineItems.MemberRecordPlan | bundestags_scraper/pipelines.py:194-212 | the member record is read with every optional field absent as None, and gives the expected `_politician` statements |
| PipelineItems.MemberRecordFields | bundestags_scraper/pipelines.py:195-211 | the values `_politician` reads off the member record, field by field |
| PipelineItems.MemberWrites | bundestags_scraper/pipelines.py:194-316 | writing the member into a graph holding period 20 leaves its Domain, both Pages, one Politician with its name, one Mandate, and SERVED_DURING, HAS_MANDATE and IN_PERIOD |
| PipelineItems.PeriodMemberScenario | bundestags_scraper/pipelines.py:86-99 | the Period and then its member, from an empty graph, give exactly that graph |
| Items.Get | bundestags_scraper/pipelines.py:133 | `d.get(k)` is the stored value, or None for a missing field |
| PyStr.Lstrip | bundestags_scraper/spiders/politican_spider.py:96 | `lstrip` makes nothing longer and leaves no leading whitespace |
| PyStr.LstripSuffix | bundestags_scraper/spiders/politican_spider.py:96 | what `lstrip` keeps is a suffix of the input |
| PyStr.LstripRemovesSpace | bundestags_scraper/spiders/politican_spider.py:96 | what `lstrip` removes is all whitespace |
| PyStr.Rstrip | bundestags_scraper/spiders/politican_spider.py:93 | `rstrip` makes nothing longer and leaves no trailing whitespace |
| PyStr.RstripPrefix | bundestags_scraper/spiders/politican_spider.py:93 | what `rstrip` keeps is a prefix of the input |
| PyStr.RstripRemovesSpace | bundestags_scraper/spiders/politican_spider.py:93 | what `rstrip` removes is all whitespace |
| PyStr.LeadingSpace | bundestags_scraper/pipelines.py:56 | the count of leading whitespace is at most the length |
| PyStr.StripTrimmed | bundestags_scraper/pipelines.py:56 | `strip` leaves no whitespace at either end |
| PyStr.StripSlice | bundestags_scraper/pipelines.py:56 | `strip` keeps the slice between the leading and trailing whitespace and removes only whitespace |
| PyStr.TrimmedStrip | bundestags_scraper/pipelines.py:56 | a string with no outer whitespace is its own `strip` |
| PyStr.StripIsRstripLstrip | bundestags_scraper/pipelines.py:56 | `strip` is `rstrip` after `lstrip` |
| PyStr.StripPadded | bundestags_scraper/pipelines.py:56 | a space on each side of a trimmed string is stripped off again |
| PyStr.LstripSpace | bundestags_scraper/spiders/politican_spider.py:96 | a leading space does not survive `lstrip` |
| PyStr.RstripSpace | bundestags_scraper/spiders/politican_spider.py:93 | a trailing space on a trimmed string does not survive `rstrip` |
| PyStr.StripIdempotent | bundestags_scraper/pipelines.py:56 | `strip` twice is `strip` once |
| PyStr.RstripChar | bundestags_scraper/spiders/politican_spider.py:93 | `rstrip('-')` keeps a prefix that does not end in '-' and removes only that character |
| PyStr.Word | llm_enrichment/pythonProject1/embedding_retrieval.py:56 | a word is a whitespace-free prefix that stops at whitespace or the end |
| PyStr.SplitWs | llm_enrichment/pythonProject1/embedding_retrieval.py:56 | `split()` gives non-empty, whitespace-free words |
| PyStr.JoinAppend | llm_enrichment/pythonProject1/embedding_retrieval.py:68 | joining one more piece appends the separator and the piece |
| PyStr.CollapseWsFacts | bundestags_scraper/spiders/politician_contant_spider.py:81 | after `' '.join(text.split())` every whitespace is a single plain space with none at the ends, and the non-whitespace characters are those of the input, in order |
| PyStr.IndexOf | bundestags_scraper/spiders/politican_spider.py:187 | the first occurrence of a character is at the index given, and none comes before |
| PyStr.IndexOfFirst | bundestags_scraper/spiders/politican_spider.py:187 | an index holding the character with none before it is the first occurrence |
| PyStr.SplitOn | bundestags_scraper/spiders/politican_spider.py:204 | `split(c)` gives at least one piece |
| PyStr.FirstSeparator | bundestags_scraper/spiders/politican_spider.py:187 | in `a + c + b` with no `c` in `a`, the first `c` is right after `a` |
| PyStr.SplitOnSeparator | bundestags_scraper/spiders/politican_spider.py:204 | `(a + c + b).split(c)` is `a` followed by the split of `b` |
| PyStr.SplitOnPieces | bundestags_scraper/spiders/politican_spider.py:204 | no piece of a split holds the separator |
| PyStr.JoinSplitOn | bundestags_scraper/spiders/politican_spider.py:204 | splitting at `c` and joining with `c` gives the string back |
| PyStr.SplitOnHead | bundestags_scraper/spiders/politican_spider.py:187 | the first piece of `split(c)` is the text before the first `c`, or all of it |
| PyStr.SplitFirst | bundestags_scraper/spiders/politican_spider.py:190 | `split(c, 1)` gives the text before and after the first `c` |
| PyStr.SplitFirstSeparator | bundestags_scraper/spiders/politican_spider.py:190 | `(a + c + b).split(c, 1)` is `(a, b)` when `a` has no `c` |
| PyStr.ContainsOccurs | bundestags_scraper/spiders/politican_spider.py:122-131 | a substring found at a position is contained |
| PyStr.LowerChar | bundestags_scraper/spiders/politican_spider.py:122 | `lower()` maps a character to a lower-case letter only from that letter or its capital |
| PyStr.Lower | bundestags_scraper/spiders/politican_spider.py:122 | `lower()` keeps the length |
| PyStr.LowerAt | bundestags_scraper/spiders/politican_spider.py:122 | `lower()` maps each character on its own |
| PyStr.ReplaceChar | bundestags_scraper/spiders/politican_spider.py:204 | a one-character `replace` keeps the length |
| PyStr.ReplaceCharAt | bundestags_scraper/spiders/politican_spider.py:204 | it replaces exactly the occurrences of `a`, each by `b` |
| PyStr.RemoveChar | bundestags_scraper/spiders/politican_spider.py:99 | removing a character makes nothing longer |
| PyStr.RemoveCharMembers | bundestags_scraper/spiders/politican_spider.py:99 | after removing the soft hyphen none is left, and every other character is kept |
| PyStr.DigitChar | llm_enrichment/pythonProject1/llm_enrichment_process_final.py:191 | the digit character of `d` has value `d` |
| PyStr.NatToDecimal | llm_enrichment/pythonProject1/llm_enrichment_process_final.py:191 | `str(n)` is a non-empty run of digits with no leading zero |
| PyStr.ZeroPad | llm_enrichment/pythonProject1/llm_enrichment_process_final.py:191 | `f"{n:03d}"` has width `max(3, len(str(n)))`, holds only digits, and ends with `str(n)` |
| PyStr.DecimalValueOfNat | llm_enrichment/pythonProject1/llm_enrichment_process_final.py:191 | the digits of `str(n)` read back as `n` |
| PyStr.DecimalValueLeadingZeros | llm_enrichment/pythonProject1/llm_enrichment_process_final.py:191 | leading zeros do not change a decimal value |
| PyStr.ZeroPadValue | llm_enrichment/pythonProject1/llm_enrichment_process_final.py:191 | a zero-padded number reads back as itself, so distinct batch numbers give distinct file names |
| PyStr.DigitsOf | llm_enrichment/pythonProject1/text_to_dqr.py:109 | an accepted integer body is a non-empty digit run |
| PyStr.DigitsOfDigits | llm_enrichment/pythonProject1/text_to_dqr.py:109 | a plain digit run is accepted as it is |
| PyStr.ParseInt | llm_enrichment/pythonProject1/text_to_dqr.py:109 | `int()` never accepts the empty string |
| PyStr.ParseIntDecimal | llm_enrichment/pythonProject1/text_to_dqr.py:109 | `int(str(i)) == i` for every integer |
| Counts.Increment | bundestags_scraper/utils/h2_count_spider.py:54 | after `d[k] += 1` the key is present |
| Counts.Items | bundestags_scraper/utils/sort_counts.py:11 | `items()` has one pair per key |
| Counts.IncrementValid | bundestags_scraper/utils/h2_count_spider.py:54 | `d[k] += 1` keeps the counter well formed: distinct keys, counts for exactly the listed keys |
| Counts.IncrementGet | bundestags_scraper/utils/h2_count_spider.py:54 | `d[k] += 1` adds one to the count of `k` and changes no other count |
| Counts.SumOther | bundestags_scraper/utils/h2_count_spider.py:54 | changing the count of an unlisted key changes no sum |
| Counts.SumBump | bundestags_scraper/utils/h2_count_spider.py:54 | adding one to a key listed once adds one to the sum |
| Counts.DistinctOnce | bundestags_scraper/utils/h2_count_spider.py:54 | a key of a list with distinct keys occurs in it once |
| Counts.IncrementTotal | bundestags_scraper/utils/h2_count_spider.py:54 | `d[k] += 1` adds one to the total |
| Counts.TallyCounts | bundestags_scraper/utils/h2_count_spider.py:51-54 | tallying a list keeps the counter well formed, raises each count by the number of times its key occurs, and raises the total by the list's length |
| Counts.TallySnoc | bundestags_scraper/utils/h2_count_spider.py:51-54 | tallying one more key increments the counter once more |
| Counts.TallyConcat | bundestags_scraper/utils/h2_count_spider.py:51-54 | tallying `a` and then `b` is tallying `a + b`, so pages counted one after another add up |
| H2CountSpider.RequestUrlsSpec | bundestags_scraper/utils/h2_count_spider.py:26-37 | every requested URL is the non-empty detail page of a politician record, every such record is requested, and there are no more requests than records |
| H2CountSpider.StartRequests | bundestags_scraper/utils/h2_count_spider.py:26-37 | the loop over the records yields exactly those URLs, in order |
| H2CountSpider.CountedOccurrences | bundestags_scraper/utils/h2_count_spider.py:52-54 | every non-empty heading text is counted as often as it occurs, and the empty text never |
| H2CountSpider.CountHeadings | bundestags_scraper/utils/h2_count_spider.py:51-54 | the loop leaves the counter it is given tallied with the page's non-empty heading texts |
| H2CountSpider.H2CountSpider.constructor | bundestags_scraper/utils/h2_count_spider.py:15-18 | the counter starts empty |
| H2CountSpider.H2CountSpider.Parse | bundestags_scraper/utils/h2_count_spider.py:39-54 | `parse` adds one to the count of each non-empty heading on the page and keeps the counter consistent with every heading counted so far |
| H2CountSpider.CounterMeaning | bundestags_scraper/utils/h2_count_spider.py:18-54 | each count is the number of times its heading was counted, and the total is the number of headings counted |
| H2CountSpider.ParseMonotone | bundestags_scraper/utils/h2_count_spider.py:39-54 | parsing a page never lowers a count; each count grows by the heading's occurrences and the total by the number of non-empty headings |
| SortCounts.InsertPermutes | bundestags_scraper/utils/sort_counts.py:10-12 | inserting adds exactly the one item |
| SortCounts.InsertMembers | bundestags_scraper/utils/sort_counts.py:10-12 | an item is in the result of an insert exactly when it is the new one or was there |
| SortCounts.SortedTail | bundestags_scraper/utils/sort_counts.py:10-12 | the tail of a descending list is descending and no larger than its head |
| SortCounts.SortedCons | bundestags_scraper/utils/sort_counts.py:10-12 | a head at least as large as a descending tail gives a descending list |
| SortCounts.InsertSorted | bundestags_scraper/utils/sort_counts.py:10-12 | inserting into a descending list keeps it descending |
| SortCounts.InsertLast | bundestags_scraper/utils/sort_counts.py:10-12 | an item no larger than any present goes last |
| SortCounts.WithCountConcat | bundestags_scraper/utils/sort_counts.py:10-12 | the items of one count in `a + b` are those of `a`, then those of `b` |
| SortCounts.WithCountNone | bundestags_scraper/utils/sort_counts.py:10-12 | a list of smaller counts holds no item of count `v` |
| SortCounts.InsertStable | bundestags_scraper/utils/sort_counts.py:10-12 | inserting places the new item after the earlier items of its count |
| SortCounts.DistinctCons | bundestags_scraper/utils/sort_counts.py:10-12 | a new key before a list of distinct keys keeps them distinct |
| SortCounts.InsertDistinct | bundestags_scraper/utils/sort_counts.py:10-12 | inserting a new key keeps keys distinct |
| SortCounts.SortPermutes | bundestags_scraper/utils/sort_counts.py:10-12 | the sorted items are a permutation of the input |
| SortCounts.SortSorted | bundestags_scraper/utils/sort_counts.py:10-12 | counts come out non-increasing |
| SortCounts.SortStable | bundestags_scraper/utils/sort_counts.py:10-12 | items with equal counts keep their original order, as Python's stable sort with `reverse=True` does |
| SortCounts.SortSortedIdentity | bundestags_scraper/utils/sort_counts.py:10-12 | sorting an already sorted list changes nothing |
| SortCounts.SortIdempotent | bundestags_scraper/utils/sort_counts.py:4-16 | running the sort a second time on the rewritten file changes nothing |
| SortCounts.SortDistinct | bundestags_scraper/utils/sort_counts.py:10-12 | distinct keys stay distinct, so `dict(...)` keeps every sorted pair in sorted order |
| SortCounts.ItemsDistinct | bundestags_scraper/utils/sort_counts.py:11 | a counter's items have distinct keys |
| SortCounts.SortedCountsSpec | bundestags_scraper/utils/sort_counts.py:4-16 | the rewritten file holds exactly the original pairs, keys distinct, counts non-increasing, ties in their original order |
| BaseSpider.DomainItem | bundestags_scraper/spiders/base_spider.py:90-94 | the domain record has type "domain", the domain, and the description "Domain extracted from " followed by the URL |
| BaseSpider.PageItem | bundestags_scraper/spiders/base_spider.py:107-113 | the page record has type "page", the response's URL, title and text, and the domain |
| BaseSpider.Missing | bundestags_scraper/spiders/base_spider.py:125 | no more fields are reported missing than are mandatory |
| BaseSpider.MissingMembers | bundestags_scraper/spiders/base_spider.py:125 | a field is reported missing exactly when it is mandatory and not truthy |
| BaseSpider.MissingConcat | bundestags_scraper/spiders/base_spider.py:125 | the comprehension keeps order: the missing fields of a concatenation are those of its parts, concatenated |
| BaseSpider.MissingCount | bundestags_scraper/spiders/base_spider.py:125 | a missing field is reported as often as `mandatory` names it |
| BaseSpider.SourceItems | bundestags_scraper/spiders/base_spider.py:115-122 | `add_source_page` yields one or two records: the domain record first exactly when the domain is new, and the page record always last |
| BaseSpider.SourceMixin.constructor | bundestags_scraper/spiders/base_spider.py:72-74 | a new spider has seen no domain |
| BaseSpider.SourceMixin.GenerateSourceDomainItem | bundestags_scraper/spiders/base_spider.py:85-94 | the domain record comes back exactly the first time a domain is seen; afterwards the domain is in `seen_domains` and the result is None |
| BaseSpider.SourceMixin.GenerateSourcePageItem | bundestags_scraper/spiders/base_spider.py:96-113 | the page record of the response, with its domain |
| BaseSpider.SourceMixin.AddSourcePage | bundestags_scraper/spiders/base_spider.py:115-122 | it yields the domain record only for a new domain, then the page record, and remembers the domain |
| BaseSpider.SourceMixin.ValidateItem | bundestags_scraper/spiders/base_spider.py:124-128 | True exactly when every mandatory field is truthy; one report listing the missing fields is logged exactly when some are missing |
| PoliticianSpider.CleanPartsKeepsText | bundestags_scraper/spiders/politican_spider.py:87-97 | a `<br>` is never kept: the cleaned list has one entry per text part, each no longer than its part |
| PoliticianSpider.UnbreakRemoves | bundestags_scraper/spiders/politican_spider.py:99-100 | after the two substitutions no soft hyphen and no no-break space is left |
| PoliticianSpider.CollapseUnbreak | bundestags_scraper/spiders/politican_spider.py:99-101 | after collapsing, all whitespace is single spaces |
| PoliticianSpider.StripCollapsed | bundestags_scraper/spiders/politican_spider.py:101 | `strip()` keeps a collapsed string collapsed |
| PoliticianSpider.HeaderTextTidy | bundestags_scraper/spiders/politican_spider.py:98-101 | a cleaned header has no soft hyphen, no no-break space, no run of whitespace and no outer whitespace |
| PoliticianSpider.CleanHeaderTidy | bundestags_scraper/spiders/politican_spider.py:87-101 | the same holds for the header of every `th` |
| PoliticianSpider.CleanPart | bundestags_scraper/spiders/politican_spider.py:90-97 | one step of the part loop: a `<br>` right-strips the previous part and its trailing '-'; a text part after a `<br>` loses its leading whitespace |
| PoliticianSpider.CleanHeaderParts | bundestags_scraper/spiders/politican_spider.py:89-97 | the part loop builds the cleaned list step by step |
| PoliticianSpider.ExtractHeaders | bundestags_scraper/spiders/politican_spider.py:75-103 | one cleaned header per `th`, in order |
| PoliticianSpider.FirstRule | bundestags_scraper/spiders/politican_spider.py:127-130 | a rule field found is one whose keyword occurs in the header, taken from the first such rule |
| PoliticianSpider.Selections | bundestags_scraper/spiders/politican_spider.py:121-130 | one field choice per header |
| PoliticianSpider.LastIndexWins | bundestags_scraper/spiders/politican_spider.py:121-131 | a field is mapped exactly when some column selects it, to the last such column |
| PoliticianSpider.HeaderMapLastWins | bundestags_scraper/spiders/politican_spider.py:105-131 | a field is mapped exactly when some header selects it, to the last such header, so every index is a column and later headers overwrite earlier ones |
| PoliticianSpider.HeaderMapSkipsNumberColumn | bundestags_scraper/spiders/politican_spider.py:124-125 | a column whose lower-cased header contains "wahlkreisnr" is never mapped |
| PoliticianSpider.HeaderMapFields | bundestags_scraper/spiders/politican_spider.py:112-119 | every mapped field is one of the six rule fields |
| PoliticianSpider.MatchRule | bundestags_scraper/spiders/politican_spider.py:127-130 | the rule loop stops at the first rule whose keywords match |
| PoliticianSpider.MapHeaders | bundestags_scraper/spiders/politican_spider.py:105-131 | the loop over the headers builds the header map |
| PoliticianSpider.CellAt | bundestags_scraper/spiders/politican_spider.py:144-147 | `cell(idx)` is the cell at a present index within the row, and None otherwise |
| PoliticianSpider.TextAt | bundestags_scraper/spiders/politican_spider.py:158-162 | a column's text is present exactly when its cell is |
| PoliticianSpider.SortKey | bundestags_scraper/spiders/politican_spider.py:186-187 | the sort key is a prefix of the sort value with no '@' |
| PoliticianSpider.DetailPage | bundestags_scraper/spiders/politican_spider.py:185 | a detail page is set exactly when the link has a truthy target |
| PoliticianSpider.ExtractName | bundestags_scraper/spiders/politican_spider.py:171-190 | without a cell nothing changes; with one, full name and detail page are set from the link, and last and first name, stripped, exactly when the sort key holds a comma; no other field changes |
| PoliticianSpider.ExtractNameOthers | bundestags_scraper/spiders/politican_spider.py:171-190 | `_extract_name` adds no field other than those four |
| PoliticianSpider.ExtractNameFromSortValue | bundestags_scraper/spiders/politican_spider.py:186-190 | the sort value `last, first@rest` gives the stripped `last` and `first` |
| PoliticianSpider.Years | bundestags_scraper/spiders/politican_spider.py:204 | splitting a lifespan gives at least one piece |
| PoliticianSpider.ExtractLifespan | bundestags_scraper/spiders/politican_spider.py:192-207 | nothing changes for a missing or empty text; otherwise the stripped first piece is the birth year and, when there is a second, the stripped second is the death year; no other field changes |
| PoliticianSpider.DashesNormalised | bundestags_scraper/spiders/politican_spider.py:204 | normalising the dashes of `born–died` leaves the years and turns the first dash into '-' |
| PoliticianSpider.YearsOfLifespan | bundestags_scraper/spiders/politican_spider.py:204 | `born–died…` with either dash splits into `born`, `died` and the rest |
| PoliticianSpider.ExtractLifespanOfYears | bundestags_scraper/spiders/politican_spider.py:192-207 | a lifespan `born–died` gives the stripped birth and death years |
| PoliticianSpider.CopyTextColumns | bundestags_scraper/spiders/politican_spider.py:158-162 | copying columns loses no field |
| PoliticianSpider.CopyTextColumnsField | bundestags_scraper/spiders/politican_spider.py:158-162 | a field is set after copying exactly when it was before or is a listed column with a cell, which it then holds the text of; other fields keep their values |
| PoliticianSpider.StampKeeps | bundestags_scraper/spiders/politican_spider.py:164-168 | the final `update` changes only type, source page and period number |
| PoliticianSpider.TextColumnsApart | bundestags_scraper/spiders/politican_spider.py:158 | the four text columns are none of the fields set from other cells or by the final update |
| PoliticianSpider.RowItemStamp | bundestags_scraper/spiders/politican_spider.py:164-168 | every row record is a politician record with type "politician", the page URL and the request's period number |
| PoliticianSpider.DatedKeys | bundestags_scraper/spiders/politican_spider.py:149-155 | the name and lifespan cells set only name, detail page and year fields |
| PoliticianSpider.RowItemWellFormed | bundestags_scraper/spiders/politican_spider.py:133-169 | a row record sets only fields `PoliticianItem` declares |
| PoliticianSpider.DatedName | bundestags_scraper/spiders/politican_spider.py:149-151 | the name cell alone decides whether full name and detail page are set |
| PoliticianSpider.RowItemName | bundestags_scraper/spiders/politican_spider.py:133-169 | a row sets full name and detail page exactly when its name cell exists, the full name being the cell's link text |
| PoliticianSpider.DatedNoLifespan | bundestags_scraper/spiders/politican_spider.py:153-155 | without a lifespan cell neither year is set by the name and lifespan steps |
| PoliticianSpider.RowItemNoLifespan | bundestags_scraper/spiders/politican_spider.py:133-169 | a row without a lifespan cell sets neither year |
| PoliticianSpider.RowItemTextColumn | bundestags_scraper/spiders/politican_spider.py:133-169 | a text column is set exactly when its cell exists, to that cell's text |
| PoliticianSpider.CopyColumns | bundestags_scraper/spiders/politican_spider.py:158-162 | the column loop copies each text column whose cell exists |
| PoliticianSpider.ParseRow | bundestags_scraper/spiders/politican_spider.py:133-169 | `parse_row` builds the row record from its cells |
| PoliticianSpider.TableHeaders | bundestags_scraper/spiders/politican_spider.py:56 | a table gets one header per `th` |
| PoliticianSpider.RowItems | bundestags_scraper/spiders/politican_spider.py:69-73 | one record per row |
| PoliticianSpider.TableItems | bundestags_scraper/spiders/politican_spider.py:56-73 | one record per body row of the table, in order |
| PoliticianSpider.ParseRows | bundestags_scraper/spiders/politican_spider.py:64-73 | every row is parsed and yielded in order; each row failing the mandatory-field check adds one report, and no domain is remembered |
| PoliticianSpider.Parse | bundestags_scraper/spiders/politican_spider.py:36-73 | `parse` yields the source records, then one record per row (none without a member table), and logs one report per row that fails validation; a failing row is still yielded |
| LegislativePeriodSpider.DigitRunEnd | bundestags_scraper/spiders/legislative_period_spider.py:43 | the `\d+` run starting at a position ends within the text |
| LegislativePeriodSpider.DigitRun | bundestags_scraper/spiders/legislative_period_spider.py:43 | the run is all digits and ends at a non-digit or at the end, so `\d+` is greedy |
| LegislativePeriodSpider.SpaceRunEnd | bundestags_scraper/spiders/legislative_period_spider.py:43 | the `\s*` run starting at a position ends within the text |
| LegislativePeriodSpider.GroupAt | bundestags_scraper/spiders/legislative_period_spider.py:43 | the group of a match is a non-empty digit run |
| LegislativePeriodSpider.FindMatch | bundestags_scraper/spiders/legislative_period_spider.py:43 | `re.search` finds the leftmost match, or reports that there is none anywhere |
| LegislativePeriodSpider.PeriodNumber | bundestags_scraper/spiders/legislative_period_spider.py:43-45 | a period number found is a non-empty digit run |
| LegislativePeriodSpider.PeriodNumberNamesPeriod | bundestags_scraper/spiders/legislative_period_spider.py:42-45 | a text with a period number contains "Wahlperiode" |
| LegislativePeriodSpider.DigitRunOf | bundestags_scraper/spiders/legislative_period_spider.py:43 | a given maximal digit run is the one the matcher finds |
| LegislativePeriodSpider.SpaceRunOf | bundestags_scraper/spiders/legislative_period_spider.py:43 | a given maximal whitespace run is the one the matcher finds |
| LegislativePeriodSpider.FindPeriodSkips | bundestags_scraper/spiders/legislative_period_spider.py:43 | the search skips text holding no '(' |
| LegislativePeriodSpider.PeriodNumberAt | bundestags_scraper/spiders/legislative_period_spider.py:43-45 | when the first '(' opens `(digits.` + whitespace + `Wahlperiode)`, those digits are the period number |
| LegislativePeriodSpider.PeriodNumberOf | bundestags_scraper/spiders/legislative_period_spider.py:43-45 | `… (19. Wahlperiode) …` with no '(' before it gives "19" |
| LegislativePeriodSpider.NoParenNoPeriod | bundestags_scraper/spiders/legislative_period_spider.py:43-45 | a text with no '(' has no period number |
| LegislativePeriodSpider.FirstHref | bundestags_scraper/spiders/legislative_period_spider.py:39 | the row's `href` is present exactly when one of its links has one, and is then a link's `href` |
| LegislativePeriodSpider.PeriodItem | bundestags_scraper/spiders/legislative_period_spider.py:49-57 | the period record carries type "legislative_period", the number found in the text, the text as name, no dates, the page as source and the joined link as detail page |
| LegislativePeriodSpider.RowPeriod | bundestags_scraper/spiders/legislative_period_spider.py:35-57 | a row yields a record exactly when it has a link with a truthy `href` and a non-empty text containing "Wahlperiode" |
| LegislativePeriodSpider.PeriodItems | bundestags_scraper/spiders/legislative_period_spider.py:35-57 | the rows yield at most one record each |
| LegislativePeriodSpider.PeriodItemsConcat | bundestags_scraper/spiders/legislative_period_spider.py:35-57 | rows are read independently and in order: the records of two row lists concatenate |
| LegislativePeriodSpider.PeriodItemsFrom | bundestags_scraper/spiders/legislative_period_spider.py:35-57 | every record comes from a row that passes the filter, and is that row's period record |
| LegislativePeriodSpider.PeriodItemsShape | bundestags_scraper/spiders/legislative_period_spider.py:49-57 | every record is a well-formed period record of the page, start and end dates None |
| LegislativePeriodSpider.ParseRow | bundestags_scraper/spiders/legislative_period_spider.py:36-57 | the loop body yields the row's record, if any |
| LegislativePeriodSpider.ParseRows | bundestags_scraper/spiders/legislative_period_spider.py:35-57 | the loop yields the records of the passing rows, in row order |
| LegislativePeriodSpider.Parse | bundestags_scraper/spiders/legislative_period_spider.py:18-57 | `parse` yields the source records first, then, only on a domain containing "wikipedia.org", one record per passing row |
| PoliticianContentSpider.Page | bundestags_scraper/spiders/politician_contant_spider.py:22-44 | batch `b` requests at most 2000 of the sorted detail pages; a negative batch is refused |
| PoliticianContentSpider.PagesCover | bundestags_scraper/spiders/politician_contant_spider.py:22-44 | batches `0 .. n - 1` together request the first `n * 2000` sorted detail pages, each once and in order |
| PoliticianContentSpider.Step | bundestags_scraper/spiders/politician_contant_spider.py:73-82 | a step keeps the current section among the sections |
| PoliticianContentSpider.StepValid | bundestags_scraper/spiders/politician_contant_spider.py:73-82 | a step keeps the grouping consistent: the section order lists each section once |
| PoliticianContentSpider.UntilNormdaten | bundestags_scraper/spiders/politician_contant_spider.py:69-72 | the children read are the prefix before the first `normdaten` child |
| PoliticianContentSpider.Fold | bundestags_scraper/spiders/politician_contant_spider.py:65-82 | the current section is always among the sections |
| PoliticianContentSpider.FoldValid | bundestags_scraper/spiders/politician_contant_spider.py:65-82 | the grouping stays consistent after any children |
| PoliticianContentSpider.ScanStopsAtNormdaten | bundestags_scraper/spiders/politician_contant_spider.py:70-72 | children from the first `normdaten` on contribute nothing |
| PoliticianContentSpider.HeadingResets | bundestags_scraper/spiders/politician_contant_spider.py:73-78 | a heading div with a non-empty title makes that title current and its section empty, even if it existed; the title keeps its first position |
| PoliticianContentSpider.EmptyHeadingIgnored | bundestags_scraper/spiders/politician_contant_spider.py:73-78 | a heading div with an empty title changes nothing, and its text is never kept |
| PoliticianContentSpider.TextAppends | bundestags_scraper/spiders/politician_contant_spider.py:79-82 | any other child with text appends its whitespace-collapsed text to the current section and nowhere else |
| PoliticianContentSpider.ContentItem | bundestags_scraper/spiders/politician_contant_spider.py:94-99 | the content record has type "politician_content", the page URL, the header and the content |
| PoliticianContentSpider.GroupItems | bundestags_scraper/spiders/politician_contant_spider.py:93-99 | one record per section |
| PoliticianContentSpider.SectionItemsHeaders | bundestags_scraper/spiders/politician_contant_spider.py:65-99 | a page with children yields one record per distinct header, the first for '#', all with the page URL |
| PoliticianContentSpider.ChildrenEmpty | bundestags_scraper/spiders/politician_contant_spider.py:57-63 | there are no children exactly when every container is empty |
| PoliticianContentSpider.GroupSections | bundestags_scraper/spiders/politician_contant_spider.py:65-82 | the first loop builds the grouping of the children up to the first `normdaten` one |
| PoliticianContentSpider.JoinSections | bundestags_scraper/spiders/politician_contant_spider.py:85-86 | the second loop gives every section, and only those, its pieces joined by newlines and stripped |
| PoliticianContentSpider.YieldSections | bundestags_scraper/spiders/politician_contant_spider.py:93-99 | the last loop yields one record per section in insertion order |
| PoliticianContentSpider.Parse | bundestags_scraper/spiders/politician_contant_spider.py:46-99 | `parse` yields the source records, then, when the containers have children, one content record per section, in insertion order |
| EmbeddingRetrieval.Lookup | llm_enrichment/pythonProject1/embedding_retrieval.py:35-37 | looking up a present key gives its value, or None exactly when the JSON value is null |
| EmbeddingRetrieval.SectionOf | llm_enrichment/pythonProject1/embedding_retrieval.py:34-38 | an entry gives a section exactly when `full_name`, `content_id` and `section_content` are all present, and otherwise the `KeyError` of the first missing one in that order; a null value is copied into the section as None, and any other value as itself |
| EmbeddingRetrieval.SectionsOfPointwise | llm_enrichment/pythonProject1/embedding_retrieval.py:33-38 | extraction succeeds exactly when every entry converts, giving one section per entry, in order |
| EmbeddingRetrieval.SectionsOfPrefixFailure | llm_enrichment/pythonProject1/embedding_retrieval.py:33-38 | the error raised is the first failing entry's |
| EmbeddingRetrieval.NoEntriesNoSections | llm_enrichment/pythonProject1/embedding_retrieval.py:33 | a person without content entries gives no sections and no error, even without `full_name` |
| EmbeddingRetrieval.NullContentRaises | llm_enrichment/pythonProject1/embedding_retrieval.py:33 | a null `neo4j_content` raises TypeError, since `get` returns the null and it cannot be iterated |
| EmbeddingRetrieval.NullsCopied | llm_enrichment/pythonProject1/embedding_retrieval.py:33-38 | a null name and null entry values are not errors: they appear in the section as None |
| EmbeddingRetrieval.ExtractContentSections | llm_enrichment/pythonProject1/embedding_retrieval.py:29-41 | the append loop gives the extraction of the person: `[]` without `neo4j_content`, TypeError for a null one, otherwise the sections of its entries or the first KeyError |
| EmbeddingRetrieval.SumWConcat | llm_enrichment/pythonProject1/embedding_retrieval.py:62-64 | per-word token sums add over concatenation |
| EmbeddingRetrieval.SuffixTrans | llm_enrichment/pythonProject1/embedding_retrieval.py:76-87 | a suffix of a suffix is a suffix |
| EmbeddingRetrieval.SnocSuffix | llm_enrichment/pythonProject1/embedding_retrieval.py:61-63 | a chunk that is a suffix of the words read stays one when the next word is appended |
| EmbeddingRetrieval.DropSnoc | llm_enrichment/pythonProject1/embedding_retrieval.py:61-63 | a tail of a list ending in `w` is the tail of the rest followed by `w` |
| EmbeddingRetrieval.SumWSnoc | llm_enrichment/pythonProject1/embedding_retrieval.py:62-64 | appending a word adds its tokens |
| EmbeddingRetrieval.OverlapSuffix | llm_enrichment/pythonProject1/embedding_retrieval.py:76-87 | the carried-over words are a suffix of the chunk |
| EmbeddingRetrieval.OverlapFits | llm_enrichment/pythonProject1/embedding_retrieval.py:76-87 | their per-word token sum is within the overlap budget; a negative budget carries nothing |
| EmbeddingRetrieval.OverlapLongest | llm_enrichment/pythonProject1/embedding_retrieval.py:76-87 | they are the longest suffix that fits: each longer suffix's per-word sum exceeds the budget |
| EmbeddingRetrieval.TakeOverlap | llm_enrichment/pythonProject1/embedding_retrieval.py:76-87 | the backward loop with `insert(0, …)` builds that overlap and its token count |
| EmbeddingRetrieval.FoldSnoc | llm_enrichment/pythonProject1/embedding_retrieval.py:61-88 | the loop over one more word is one more pass |
| EmbeddingRetrieval.FoldStep | llm_enrichment/pythonProject1/embedding_retrieval.py:61-88 | the last pass appends the word, and when the chunk is full emits it and keeps the overlap |
| EmbeddingRetrieval.FoldChunk | llm_enrichment/pythonProject1/embedding_retrieval.py:57-88 | `current_tokens` is always the per-word sum of `current_chunk`, which is a suffix of the words read |
| EmbeddingRetrieval.FoldFull | llm_enrichment/pythonProject1/embedding_retrieval.py:66-74 | every chunk emitted inside the loop had accumulated at least `max_tokens` |
| EmbeddingRetrieval.SlicesAdd | llm_enrichment/pythonProject1/embedding_retrieval.py:66-74 | an emitted suffix is the slice its range names |
| EmbeddingRetrieval.SlicesSnoc | llm_enrichment/pythonProject1/embedding_retrieval.py:61-63 | emitted slices stay slices when a word is read |
| EmbeddingRetrieval.FoldSlices | llm_enrichment/pythonProject1/embedding_retrieval.py:61-88 | every chunk emitted in the loop is the contiguous run of words its range names |
| EmbeddingRetrieval.ChainedSnoc | llm_enrichment/pythonProject1/embedding_retrieval.py:61-88 | a new range starting within the last one keeps the ranges chained |
| EmbeddingRetrieval.FoldChained | llm_enrichment/pythonProject1/embedding_retrieval.py:61-88 | the emitted ranges are chained from word 0, and the current chunk starts no later than the last one ends |
| EmbeddingRetrieval.ChainCovers | llm_enrichment/pythonProject1/embedding_retrieval.py:56-97 | chained ranges cover every index between the first start and the last end |
| EmbeddingRetrieval.ChainCoversAll | llm_enrichment/pythonProject1/embedding_retrieval.py:56-97 | chained ranges from 0 to `n` cover every index below `n` |
| EmbeddingRetrieval.FinalSpan | llm_enrichment/pythonProject1/embedding_retrieval.py:90-97 | the final non-empty chunk closes the chain at the last word |
| EmbeddingRetrieval.ChunksChained | llm_enrichment/pythonProject1/embedding_retrieval.py:56-97 | each chunk is a contiguous run of `content.split()`; the runs are chained and reach from the first word to the last |
| EmbeddingRetrieval.ChunksCover | llm_enrichment/pythonProject1/embedding_retrieval.py:56-97 | every word of a long section is in some chunk |
| EmbeddingRetrieval.FinalOverlapChunk | llm_enrichment/pythonProject1/embedding_retrieval.py:90-97 | when the last word fills a chunk, a final chunk follows exactly when the carried-over overlap is non-empty, and it is that overlap |
| EmbeddingRetrieval.CancelSuffix | llm_enrichment/pythonProject1/embedding_retrieval.py:71 | equal ids with equal tails have equal heads |
| EmbeddingRetrieval.CancelPrefix | llm_enrichment/pythonProject1/embedding_retrieval.py:71 | equal ids with equal heads have equal tails |
| EmbeddingRetrieval.ChunkIdsDistinct | llm_enrichment/pythonProject1/embedding_retrieval.py:71 | different chunks of one section get different ids |
| EmbeddingRetrieval.LabelSnoc | llm_enrichment/pythonProject1/embedding_retrieval.py:69-73 | labelling one more chunk appends its record, numbered by its position |
| EmbeddingRetrieval.LabelsSnoc | llm_enrichment/pythonProject1/embedding_retrieval.py:69-73 | records of one more chunk stay in step |
| EmbeddingRetrieval.LabelAt | llm_enrichment/pythonProject1/embedding_retrieval.py:69-73 | chunk `k` of a section becomes record `k`, with id `#kk_<id>`, the section's politician and its words joined by spaces |
| EmbeddingRetrieval.ChunkSectionShape | llm_enrichment/pythonProject1/embedding_retrieval.py:47-97 | a short section passes through unchanged; a long one becomes one record per chunk, each with its politician, id `#kk_<id>` and words joined by single spaces |
| EmbeddingRetrieval.BlankLongSectionVanishes | llm_enrichment/pythonProject1/embedding_retrieval.py:56-97 | a long section that is only whitespace contributes nothing |
| EmbeddingRetrieval.FlatMapConcat | llm_enrichment/pythonProject1/embedding_retrieval.py:47-97 | the per-section outputs concatenate |
| EmbeddingRetrieval.ChunkAllConcat | llm_enrichment/pythonProject1/embedding_retrieval.py:47-97 | the output follows input order: chunking distributes over concatenation |
| EmbeddingRetrieval.WordPass | llm_enrichment/pythonProject1/embedding_retrieval.py:61-88 | one pass of the word loop appends the word, and when the chunk is full emits its record and keeps the overlap, numbering the records by `chunk_counter` |
| EmbeddingRetrieval.ChunkLong | llm_enrichment/pythonProject1/embedding_retrieval.py:56-97 | the loop for one long section emits its chunk records, then the last chunk if anything is left |
| EmbeddingRetrieval.ChunkContentSections | llm_enrichment/pythonProject1/embedding_retrieval.py:43-99 | `chunk_content_sections` gives every section's records in input order |
| TextToDqr.ParseReply | llm_enrichment/pythonProject1/text_to_dqr.py:103-111 | the reply is stripped first; a reply without ';' raises the format error; otherwise it is split at the first ';' only and succeeds exactly when `int()` accepts the stripped level, with the stripped comment; every error quotes the stripped reply; the level is not range-checked |
| TextToDqr.DecimalNoSeparator | llm_enrichment/pythonProject1/text_to_dqr.py:108-109 | a printed level holds no ';' and no outer whitespace |
| TextToDqr.FormattedStrip | llm_enrichment/pythonProject1/text_to_dqr.py:103 | stripping a formatted reply leaves it whole, or drops the trailing space when the comment is empty |
| TextToDqr.ParseFormatted | llm_enrichment/pythonProject1/text_to_dqr.py:103-109 | a reply `"<level>; <comment>"` with any integer level and any trimmed comment, even one holding ';', parses back exactly |
| TextToDqr.ParsePadded | llm_enrichment/pythonProject1/text_to_dqr.py:103 | whitespace around the reply does not matter |
| FilterEducationContent.HeaderKey | llm_enrichment/pythonProject1/filter_education_content.py:65 | the tally key of a section: None exactly for a JSON-null header, '' exactly for a missing or empty one, otherwise the header itself |
| FilterEducationContent.Headers | llm_enrichment/pythonProject1/filter_education_content.py:65 | one key per section, in order, each the section's tally key |
| FilterEducationContent.NullApartFromMissing | llm_enrichment/pythonProject1/filter_education_content.py:65-66 | a null header and a missing one are counted under two different keys |
| FilterEducationContent.FilterSectionsMembers | llm_enrichment/pythonProject1/filter_education_content.py:36-39 | a section is kept exactly when its header is not one of the seven filtered headers, and no section is added |
| FilterEducationContent.FilterSectionsConcat | llm_enrichment/pythonProject1/filter_education_content.py:37-39 | filtering keeps the sections' order: it distributes over concatenation |
| FilterEducationContent.FilterSectionsKept | llm_enrichment/pythonProject1/filter_education_content.py:37-39 | sections that are all kept come back unchanged |
| FilterEducationContent.FilterSectionsIdempotent | llm_enrichment/pythonProject1/filter_education_content.py:36-41 | filtering the sections twice is filtering once |
| FilterEducationContent.FilteredPersons | llm_enrichment/pythonProject1/filter_education_content.py:27-44 | the output has the same persons in the same order; each keeps its other keys and has a list in `neo4j_content` exactly when the input person has one; a person without one is copied unchanged |
| FilterEducationContent.FilteredIdempotent | llm_enrichment/pythonProject1/filter_education_content.py:27-44 | filtering the data twice is filtering once |
| FilterEducationContent.FilteredFewer | llm_enrichment/pythonProject1/filter_education_content.py:33-42 | `total_sections_after` never exceeds `total_sections_before` |
| FilterEducationContent.RemainingHeadersCount | llm_enrichment/pythonProject1/filter_education_content.py:62-65 | one header is counted per section |
| FilterEducationContent.NoFilteredHeaderRemains | llm_enrichment/pythonProject1/filter_education_content.py:62-66 | no filtered header is left among the remaining headers (null ones aside) |
| FilterEducationContent.RemainingTally | llm_enrichment/pythonProject1/filter_education_content.py:61-66 | the remaining-header counts add up to `total_sections_after`, and every filtered header has count 0 |
| FilterEducationContent.FilterContent | llm_enrichment/pythonProject1/filter_education_content.py:36-39 | the inner loop keeps exactly the sections the filter function keeps, in order |
| FilterEducationContent.FilterPersonsStep | llm_enrichment/pythonProject1/filter_education_content.py:33-42 | one pass of the loop appends the person's filtered copy and adds that person's sections to the totals |
| FilterEducationContent.FilterPersons | llm_enrichment/pythonProject1/filter_education_content.py:23-44 | the filtering loop raises TypeError exactly when some person's `neo4j_content` is null (`len` of null); otherwise it returns the filtered data and the two section totals |
| FilterEducationContent.CountHeaders | llm_enrichment/pythonProject1/filter_education_content.py:64-66 | the counting loop adds each section's header once to the tally |
| FilterEducationContent.CountRemaining | llm_enrichment/pythonProject1/filter_education_content.py:61-66 | `remaining_headers` is the tally of the headers of the filtered data |
| FilterEducationContent.FilterEducation | llm_enrichment/pythonProject1/filter_education_content.py:23-66 | a TypeError, with nothing written, exactly when some person's `neo4j_content` is null; otherwise the data written, both totals, and the header tally, or the ZeroDivisionError of the reduction percentage exactly when there were no sections |
| BioSections.FirstFrom | llm_enrichment/pythonProject1/archive/scraping.py:51-73 | the position the automaton waits for lies between where the search starts and the end of the list |
| BioSections.BioAtMostOne | llm_enrichment/pythonProject1/archive/scraping.py:71-77 | at most one section is returned: the `break` empties the buffer |
| BioSections.FirstFromIs | llm_enrichment/pythonProject1/archive/scraping.py:55-69 | the first element with a tag is the one that has it after a run of elements without it |
| BioSections.PTextsSnoc | llm_enrichment/pythonProject1/archive/scraping.py:66-68 | in state 3 each 'p' adds its stripped text to the collected texts and any other element adds nothing |
| BioSections.Stay0 | llm_enrichment/pythonProject1/archive/scraping.py:55-56 | in state 0 an element that is not a 'p' leaves the search for the first 'p' going |
| BioSections.Go0 | llm_enrichment/pythonProject1/archive/scraping.py:55-57 | in state 0 a 'p' moves to state 1 and fixes the first 'p' |
| BioSections.Stay1 | llm_enrichment/pythonProject1/archive/scraping.py:58-59 | in state 1 an element that is not a div changes nothing |
| BioSections.Go1 | llm_enrichment/pythonProject1/archive/scraping.py:58-61 | in state 1 a div moves to state 2 and fixes the opening div |
| BioSections.Stay2 | llm_enrichment/pythonProject1/archive/scraping.py:62-63 | in state 2 an element that is not a 'p' changes nothing |
| BioSections.Go2 | llm_enrichment/pythonProject1/archive/scraping.py:62-65 | in state 2 a 'p' moves to state 3 and fixes where collecting starts |
| BioSections.Stay3 | llm_enrichment/pythonProject1/archive/scraping.py:66-69 | in state 3 an element that is not a div keeps the collection open |
| BioSections.Open3 | llm_enrichment/pythonProject1/archive/scraping.py:62-65 | the buffer holds the opening div's text and then the first 'p' text after it |
| BioSections.Collect3 | llm_enrichment/pythonProject1/archive/scraping.py:66-68 | in state 3 the buffer grows by the text of each 'p' and by nothing else |
| BioSections.End0 | llm_enrichment/pythonProject1/archive/scraping.py:55-79 | a list with no 'p' gives no section |
| BioSections.End1 | llm_enrichment/pythonProject1/archive/scraping.py:58-79 | a list with no div after the first 'p' gives no section |
| BioSections.End2 | llm_enrichment/pythonProject1/archive/scraping.py:60-77 | a list that ends in state 2 gives the opening div's text alone |
| BioSections.End3 | llm_enrichment/pythonProject1/archive/scraping.py:66-77 | a collection ended by a div or by the end of the list gives the div's text and the 'p' texts, joined by blank lines |
| BioSections.BioCollected | llm_enrichment/pythonProject1/archive/scraping.py:51-77 | once the first 'p', the div after it and the 'p' after that exist, the one section is the div's text and the 'p' texts up to the next div, joined by blank lines |
| BioSections.Finish | llm_enrichment/pythonProject1/archive/scraping.py:75-79 | after the last element a non-empty buffer is the biography and an empty buffer means there is none |
| BioSections.Closed | llm_enrichment/pythonProject1/archive/scraping.py:69-73 | the div that ends the collection leaves the buffer holding the biography |
| BioSections.Step | llm_enrichment/pythonProject1/archive/scraping.py:51-73 | one iteration either ends at the `break` with the biography in the buffer or keeps the loop invariant |
| BioSections.ExtractBioSections | llm_enrichment/pythonProject1/archive/scraping.py:42-79 | the automaton returns exactly the biography defined by positions: [] or one joined section |
| LlmEnrichment.BatchesFlatten | llm_enrichment/pythonProject1/llm_enrichment_process_final.py:59-62 | the batches put back together are the data: nothing lost, duplicated or reordered |
| LlmEnrichment.ShapedCons | llm_enrichment/pythonProject1/llm_enrichment_process_final.py:60-62 | a full batch in front of well-shaped batches keeps the shape |
| LlmEnrichment.BatchesShape | llm_enrichment/pythonProject1/llm_enrichment_process_final.py:59-62 | every batch is non-empty, all but the last hold exactly `batch_size` persons, and there are ceil(n / batch_size) of them; no data gives no batch |
| LlmEnrichment.BatchesUnique | llm_enrichment/pythonProject1/llm_enrichment_process_final.py:59-62 | the slicing is the only cut of the data into batches of that shape |
| LlmEnrichment.FlattenNonEmpty | llm_enrichment/pythonProject1/llm_enrichment_process_final.py:59-62 | batches whose first batch is non-empty hold some data |
| LlmEnrichment.CreateOrLoadBatches | llm_enrichment/pythonProject1/llm_enrichment_process_final.py:43-70 | a cached batch structure is returned as it is; otherwise the data is sliced; a batch size of 0 raises ValueError and a negative one gives no batch |
| LlmEnrichment.MakeBatches | llm_enrichment/pythonProject1/llm_enrichment_process_final.py:59-62 | the slicing loop produces exactly the batches |
| LlmEnrichment.Contents | llm_enrichment/pythonProject1/llm_enrichment_process_final.py:34 | one content per retrieved section |
| LlmEnrichment.TopFiveIgnoresRest | llm_enrichment/pythonProject1/llm_enrichment_process_final.py:33-34 | nothing after the first five retrieved sections reaches the model |
| LlmEnrichment.TopFiveAll | llm_enrichment/pythonProject1/llm_enrichment_process_final.py:33-34 | with five sections or fewer, all their contents are joined by spaces in rank order |
| LlmEnrichment.TopFiveSnoc | llm_enrichment/pythonProject1/llm_enrichment_process_final.py:33-34 | below five, one more section appends its content after one space |
| LlmEnrichment.FirstMissing | llm_enrichment/pythonProject1/llm_enrichment_process_final.py:121-127 | no key is reported missing only when every key the record reads is present |
| LlmEnrichment.FirstMissingSpec | llm_enrichment/pythonProject1/llm_enrichment_process_final.py:121-127 | the reported key is the first one, in the order the record reads them, that the person lacks; none is reported exactly when all are present |
| LlmEnrichment.HandleSpec | llm_enrichment/pythonProject1/llm_enrichment_process_final.py:99-153 | a person is a success exactly when retrieval and the model both answered and the person has all five keys; a success carries the person's id and name, the reply and the top-five text; a failure carries the batch number, the position, the id and name or "unknown", and the exception's type and message, KeyError for a missing key |
| LlmEnrichment.HandleLogs | llm_enrichment/pythonProject1/llm_enrichment_process_final.py:144-152 | a logged failure names its batch and its person's position |
| LlmEnrichment.Handled | llm_enrichment/pythonProject1/llm_enrichment_process_final.py:99 | one outcome per person of the batch |
| LlmEnrichment.OksErrsCount | llm_enrichment/pythonProject1/llm_enrichment_process_final.py:138-163 | every person ends up in the results or in the errors, never both |
| LlmEnrichment.OksInOrder | llm_enrichment/pythonProject1/llm_enrichment_process_final.py:138 | the results are the successes at increasing positions, and every success is among them |
| LlmEnrichment.ErrsInOrder | llm_enrichment/pythonProject1/llm_enrichment_process_final.py:153 | the errors are the failures at increasing positions, and every failure is among them |
| LlmEnrichment.TryPerson | llm_enrichment/pythonProject1/llm_enrichment_process_final.py:100-154 | one pass of the loop body yields the record or the logged error for that person |
| LlmEnrichment.ProcessBatch | llm_enrichment/pythonProject1/llm_enrichment_process_final.py:86-176 | the summary holds the batch number, its size, both counts, the results and the errors of trying each person in turn, a failure never stopping the loop |
| LlmEnrichment.BatchAccounting | llm_enrichment/pythonProject1/llm_enrichment_process_final.py:99-176 | successes and failures add up to the batch size; the errors come in batch order, each naming this batch and the position of a person that failed, and every failed person is logged |
| LlmEnrichment.ResultsInOrder | llm_enrichment/pythonProject1/llm_enrichment_process_final.py:138-170 | the results are the successful persons' records in batch order, none missing |
| LlmEnrichment.Pad3Head | llm_enrichment/pythonProject1/llm_enrichment_process_final.py:191 | `{batch_num:03d}` gives at least three characters, starting with a digit exactly for a non-negative number |
| LlmEnrichment.ZeroPadDistinct | llm_enrichment/pythonProject1/llm_enrichment_process_final.py:191 | different numbers zero-padded to the same width differ |
| LlmEnrichment.Pad3SameSign | llm_enrichment/pythonProject1/llm_enrichment_process_final.py:191 | two different numbers of the same sign get different labels |
| LlmEnrichment.Pad3Distinct | llm_enrichment/pythonProject1/llm_enrichment_process_final.py:191-197 | different batch numbers get different labels |
| LlmEnrichment.SavedFilesDistinct | llm_enrichment/pythonProject1/llm_enrichment_process_final.py:191-197 | saving two different batches never writes the same batch file or error log |
| LlmEnrichment.ErrsNonEmpty | llm_enrichment/pythonProject1/llm_enrichment_process_final.py:196 | there are errors exactly when some person failed |
| LlmEnrichment.SavedBatch | llm_enrichment/pythonProject1/llm_enrichment_process_final.py:178-209 | for a summary `process_batch` made, the error log is written exactly when some person failed and holds the errors; the checkpoint records this batch and counts batches up to and including it |

## Left out

- The Neo4j driver, sessions and connection handling (`from_crawler`, `open_spider` and `close_spider`, `bundestags_scraper/pipelines.py:64-83`): the store is an abstract graph, and a session round trip is one call of `Pipeline.Neo4jPipeline.WriteTransaction`.
- `Neo4jMixin` (`bundestags_scraper/spiders/base_spider.py:130-176`) and the Cypher read queries in the `start_requests` methods: the politician spider's list of pages and the content spider's sorted detail pages are inputs.
- The Cypher text itself: every statement is modelled by its effect on the graph, not by its text or by the database's parsing of it.
- The internals of SHA-1, `urlparse(url).netloc` and `response.urljoin`: they are function parameters with no properties assumed beyond being functions.
- `count_tokens` (tiktoken) is a total function to naturals: the `None` it returns when the encoder fails (`llm_enrichment/pythonProject1/utils.py:22-24`) is not modelled, and `timer_decorator` is left out with it.
- Scrapy selectors and XPath: a page is given as the sequence of cells, headers or elements the spider's queries return, with `normalize-space` and `string()` already applied where the spider uses them.
- `LoggingMixin`, `log_event` and `log_missing`: JSON logging to files and handlers is output only. `validate_item`'s log entry is modelled as the list of missing fields it would report.
- `embed_sections`, `embed_sections_openai` and `find_top_k_sections`: calls to OpenAI and SentenceTransformer plus numpy float cosine similarity. Their ranked result is an input.
- The OpenAI chat call and the system prompt of `text_to_dqr`: only the reply-parsing tail (`llm_enrichment/pythonProject1/text_to_dqr.py:103-111`) is modelled, on the reply's content.
- The calls into `embedding_process` and `llm_process` inside `process_batch`: what they return for a person, or the exception either raises, is the `LlmEnrichment.Outcome` input. The call of `text_to_dqr` with a signature it does not have (`llm_enrichment/pythonProject1/llm_enrichment_process_final.py:40`) is not modelled; the Outcome stands for whatever it returns or raises.
- `llm_enrichment_process_final.py` cannot run as given, for two reasons:
  - Its line 1 imports `calculate_cost`, `SYSTEM_PROMPT`, `PRICE_DATA_LLM` and `PRICE_DATA_EMBEDDING` from `text_to_dqr`. `text_to_dqr.py` defines only `system_prompt` and `text_to_dqr` (`llm_enrichment/pythonProject1/text_to_dqr.py:14-93`), so the import raises ImportError.
  - Line 112 unpacks six values, while `text_to_dqr` returns a pair (`llm_enrichment/pythonProject1/text_to_dqr.py:109`).
  - So as written, no person reaches the success branch. `LlmEnrichment.Outcome.Done` and its `Reply` model the six-value interface that line 112 expects, not the `text_to_dqr` in the source. The lemmas hold for every `Outcome`, whichever of the two it stands for.
- The `h2_counts.json` write in `spider_closed` (`bundestags_scraper/utils/h2_count_spider.py:56-61`): modelled only as the counter that is written.
- The file read and rewrite in `sort_counts.main` (`bundestags_scraper/utils/sort_counts.py:6-15`): modelled only as the values read and written. `SortCounts.SortedCountsSpec` speaks of the rewritten file as the pair list written.
- EmbeddingRetrieval.ChunkContentSections: takes sections whose name, id and text are strings. A section extracted with a null value, which would reach `count_tokens(None)` or the f-string of the chunk id, is outside its input type.
- Costs, timings, clock readings and `datetime` stamps in `process_batch` and `save_batch_results`: they are floats and wall-clock values and decide nothing.
- `main` in `llm_enrichment_process_final.py` and its hard-coded batch range; the JSON file reads and writes, including the batch-structure cache write in `create_or_load_batches`. What is saved is modelled as the `LlmEnrichment.Saved` value.
- `test_process.py`, `llm_enrichment/pythonProject1/scraping.py`, the `WikiHTMLSpider` class in `archive/scraping.py` and `archive/run_spider.py`: crawl and file plumbing, and a script importing names that do not exist.
- The printed report of `filter_education_content` (counts, float percentages, top 20): only the ZeroDivisionError the percentage raises when there are no sections is modelled, as the `Failure` of `FilterEducationContent.FilterEducation`.
- `items.py` declares fields only: its records are maps from field name to optional string (`Items.Fields`), with JSON nulls as `None`.
- `str.lower()` is modelled for ASCII letters and the German umlauts Ä, Ö, Ü only; other characters are left as they are.
- `int()` in `TextToDqr.ParseReply` accepts an optional sign and ASCII decimal digits, with single underscores between digits. Python also accepts non-ASCII Unicode digits there, and the model rejects them.
- `\d` in the period-number pattern of `legislative_period_spider.py` is modelled as an ASCII digit, where Python's `re` also matches other Unicode decimal digits.
- The `re.sub` calls of `extract_headers` (`bundestags_scraper/spiders/politican_spider.py:99-101`) are modelled as a deletion, a one-character replacement and a whitespace collapse, not by a regular-expression engine.
- Concurrency: Scrapy's scheduling of requests and the order in which responses arrive are not modelled; each `parse` is run on one response, and the pipeline takes records one at a time in the order given.
