# Access-control compliance core, modelled in Dafny

This project models the logic of the Access & Compliance dashboard. It has
three parts:

- **Password/MFA policy audit** (`PasswordMfa`). Three rules inspect a policy
  record. Each rule that fires appends one finding, in rule order. The
  findings' severity-weighted scores give a mean penalty. The overall score is
  `max(0, 1 - penalty)`, and fixed thresholds give the risk level. The summary
  names the three heaviest findings.
- **Catalog normalisers.**
  - `Nist` flattens a NIST SP 800-53 OSCAL catalog into one
    `{control_id, family, description}` record per first-level control. It
    also holds the embedding cache, a store keyed by cache path. The
    top-level nist.py is the same file as backend/nist.py, so the rows citing
    backend/nist.py cover both.
  - `Mitre` filters a STIX 2 bundle into techniques, mitigations and
    "mitigates" relationships. It then left-joins them and looks up both
    ATT&CK ids in a NIST mapping table.
- **Cross-reference resolution and chat routing.**
  - `Api` covers the `/api/technique` and `/api/nist` lookups. Each canonicalises
    the id, finds the first matching row and searches that row's description
    against the other catalog. Every hit becomes the row it names.
  - `ChatApi` covers the `/chat` dispatcher. Its cascade tries, in order: a
    technique mapping, a control mapping (both only in "map" mode), the audit
    passthrough, and finally retrieval QA with `pack`.

Shared modules:

- `Common` holds Option, Result, KeyError, IndexError, JSON values and
  first-match search.
- `Text` models Python's `strip`, `upper`, `lower`, `startswith`, `join`,
  `index` and `str(int)`.
- `Search` models the sentence embedder and `semantic_search`. Both are
  supplied as functions inside a `Model` value. `SearchSound` states what the
  library promises: at most `k` hits, each naming a row of the searched
  collection. Lemmas that rely on it take it as a hypothesis.

Python exceptions become error values:

- `KeyError(key)` for a subscript on a missing key;
- `IndexError(i)` for `iloc` past the last row;
- `BadRequest(400, …)` for the chat's `HTTPException`.

The resolvers do not require hits to be in range. They return the
`IndexError` the source would raise, and they are proved to succeed whenever
`SearchSound` holds and the embeddings match the catalog.

Loops in the source are Dafny methods with loop invariants:

- `load_nist`'s nested loops;
- the three STIX passes and the reference loops;
- the `semantic` builders;
- `pack`.

Each method is proved equal to a specification function, such as
`LoadNistSpec`, `Collect`, `PackSpec` or `ChatSpec`, or proved against its
properties directly. The lemmas state what those functions mean.

## Model

| member | source | states |
|---|---|---|
| PasswordMfa.RunAudit | backend/password_mfa.py:64-109 | PW_MINLEN is present iff min_length < 12. MFA_SMS_ONLY is present iff sms and neither TOTP nor FIDO2 (push and email OTP do not suppress it). MFA_ADMINS is present iff admins are not required to use MFA. The findings are the rules' output, in rule order, at most 3. The score lies in [0,1]. No findings means score 1.0 and the summary "Overall risk: low. Top issues: No material issues.". Risk is low iff there are no findings. Any finding means overall <= 0.36 and risk high. |
| PasswordMfa.RuleOutputSpec | backend/password_mfa.py:68-95 | The three rules fire exactly on their conditions. Each output finding is one of the three rule findings. They come in rule order, each id once, so there are at most three. |
| PasswordMfa.AuditAggregate | backend/password_mfa.py:98-109 | For the rule output, the rounded score lies in [0,1]. Nothing fired means score 1.0, risk low and the "No material issues" summary. Risk is low iff nothing fired, and otherwise high. |
| PasswordMfa.RiskFor | backend/password_mfa.py:101-104 | The risk is low iff overall >= 0.85, moderate iff 0.65 <= overall < 0.85, elevated iff 0.45 <= overall < 0.65, and high iff overall < 0.45. |
| PasswordMfa.RuleFindingsImpact | backend/password_mfa.py:69-98 | Every rule finding has a non-negative score and a weight × score of at least 0.64. |
| PasswordMfa.TotalImpactNonNegative | backend/password_mfa.py:99 | The sum of weight × score over findings with non-negative scores is non-negative. |
| PasswordMfa.TotalImpactAtLeast | backend/password_mfa.py:99 | If every finding's weight × score is at least b, the sum over n findings is at least b·n. |
| PasswordMfa.OverallScoreBounds | backend/password_mfa.py:98-100 | `max(0, 1 - mean penalty)` lies in [0,1]. |
| PasswordMfa.AnyFindingMeansHighRisk | backend/password_mfa.py:98-104 | With the weight table and the rule scores, any non-empty finding set gives overall <= 0.36 and risk high. |
| PasswordMfa.NoFindingsSummary | backend/password_mfa.py:99-107 | With no findings the penalty is 0, the overall score is 1.0, risk is low, and the summary reads "Overall risk: low. Top issues: No material issues.". |
| PasswordMfa.Round3Bounds | backend/password_mfa.py:109 | Rounding to 3 decimals keeps a score in [0,1], and 1.0 stays 1.0. |
| PasswordMfa.TopFindings | backend/password_mfa.py:106 | The summary's findings are the first min(3, n) of the stable descending sort. They are in non-increasing weight × score order and come from the findings (as a multiset). No finding left out outweighs one chosen. |
| PasswordMfa.SortByImpactSpec | backend/password_mfa.py:106 | `sorted(key=weight×score, reverse=True)` is non-increasing and a permutation. It is stable: findings with equal weight × score keep their input order. |
| PasswordMfa.InsertByImpactPermutes | backend/password_mfa.py:106 | Inserting a finding into the sorted prefix permutes. |
| PasswordMfa.InsertByImpactSorted | backend/password_mfa.py:106 | Inserting into a non-increasing list keeps it non-increasing. |
| PasswordMfa.InsertByImpactStable | backend/password_mfa.py:106 | Inserting keeps the relative order of findings with equal weight × score. |
| Text.NatToString | backend/password_mfa.py:72 | `str(n)` of a non-negative integer is a non-empty string of decimal digits that spells n, with no leading zero. |
| Text.Join | backend/password_mfa.py:106 | `", ".join` of no titles is empty, and of one title is that title. |
| Text.JoinSnoc | backend/password_mfa.py:106 | Joining one more part appends the separator and that part, so the parts appear in order with the separator between neighbours. |
| Text.JoinLength | backend/password_mfa.py:106 | The joined string is as long as the parts together plus one separator between each pair. |
| Text.StartsWith | backend/chat_api.py:56 | `startswith` holds iff the prefix fits and agrees character by character; the string is then the prefix followed by the rest. |
| Text.TrimStartSpec | backend/api.py:44 | `lstrip` removes exactly the leading whitespace (Python's `isspace` set). |
| Text.TrimEndSpec | backend/api.py:44 | `rstrip` removes exactly the trailing whitespace. |
| Text.StripIgnoresPadding | backend/api.py:44 | Whitespace around a string does not change its `strip()`. |
| Text.UpperStrip | backend/api.py:44 | `strip()` and `upper()` commute. |
| Text.CanonicalIgnoresCaseAndPadding | backend/api.py:44 | Two queries with the same upper-casing have the same `q.strip().upper()`, and surrounding whitespace does not change it. |
| Text.IndexOf | backend/chat_api.py:59 | The position at which `split(" ", 1)` cuts is the first space. |
| Text.IndexOfAt | backend/chat_api.py:59 | A space with no space before it is the split position. |
| Common.FirstIndex | backend/api.py:48 | `row.iloc[0]` of a filter is the first matching row, and there is none iff nothing matches. |
| Nist.LoadNist | backend/nist.py:11-28 | The loader returns exactly `LoadNistSpec(doc)`. A `KeyError` is raised for a missing "catalog", then "groups", then a control or group "id". Otherwise the result is the group-then-control flattening. |
| Nist.AppendGroup | backend/nist.py:16-27 | One group appends one record per entry of its `controls` (none when absent), in order. It raises `KeyError("id")` when a control, or the group of a control, has no id. |
| Nist.LabelValue | backend/nist.py:19-22 | The props loop leaves the value of the last "label" prop. |
| Nist.LastLabelSpec | backend/nist.py:19-22 | The label is the value of the last prop named "label". It is "" when that prop has no value or when no prop is named "label". |
| Nist.RecordsLength | backend/nist.py:15-27 | One record per first-level control. Nested enhancements are not visited, and a group without controls contributes nothing. |
| Nist.RecordAt | backend/nist.py:15-27 | Records come in group-then-control order. The record of control c of group g has `control_id` copied from the control's id, `family` equal to the group's id, and `description` equal to `title + " - " + label` ("" for a missing title). |
| Nist.EmbeddingCache.CacheEmbeddings | backend/nist.py:30-39 | A present cache path returns the stored value, and the store is unchanged, whatever `df` holds. A miss stores `encode` of the text column in row order at the path and returns it. Either way the path then holds the returned value, so a second call returns the identical value. |
| Mitre.AttackIdOf | mitre.py:17-20 | The reference loop leaves the `external_id` of the last "mitre-attack" reference. |
| Mitre.LastAttackIdSpec | mitre.py:17-20 | The id is the `external_id` of the last reference whose source is "mitre-attack" (None if it has none). It is None when there is no such reference. |
| Mitre.Tactics | mitre.py:24 | `tactics` is the `phase_name` of each kill-chain phase, in order. A phase without one raises `KeyError("phase_name")`. |
| Mitre.ExtractTechniques | mitre.py:15-33 | The technique pass returns `Collect(objs, TechniqueOf)`. The first missing "type", "phase_name" or "id" ends it with that `KeyError`. |
| Mitre.ExtractMitigations | mitre.py:36-46 | The mitigation pass returns `Collect(objs, MitigationOf)`, with the same error rule. |
| Mitre.ExtractRelationships | mitre.py:49-54 | The relationship pass returns `Collect(objs, RelationshipOf)`. It raises for a missing "type", "source_ref" or "target_ref". |
| Mitre.CollectKeepsOrder | mitre.py:15-54 | A pass succeeds iff every object's step does. It then yields one value per selected object, in source order, each that object's step value. |
| Mitre.StepsSelect | mitre.py:15-54 | Only attack patterns give techniques, only courses of action give mitigations, and only relationships of type "mitigates" are kept. |
| Mitre.ExtractedTechniques | mitre.py:15-33 | Exactly one technique per attack-pattern object, in source order, including techniques without an ATT&CK id. |
| Mitre.ExtractedMitigations | mitre.py:36-46 | Exactly one mitigation per course-of-action object, in source order. |
| Mitre.ExtractedRelationships | mitre.py:49-54 | Exactly one relationship per "mitigates" relationship object, in source order, keeping `source_ref` and `target_ref`. |
| Mitre.TechniqueFields | mitre.py:16-33 | A technique carries its object's STIX id and its last ATT&CK id. `name` and `description` default to "" and `platforms` to []. `tactics` lists the phase names in order. |
| Mitre.MitigationFields | mitre.py:37-46 | A mitigation carries its object's STIX id and its last ATT&CK id, with `name` defaulting to "". |
| Mitre.MatchingSpec | mitre.py:62-63 | The right rows matched to a key are exactly those with that key. |
| Mitre.JoinOneSpec | mitre.py:62-63 | One left row yields max(1, number of matches) rows. Row i carries the i-th match, in right-table order. Right parts carry its key. An empty right part means nothing matched. Every match appears. |
| Mitre.MatchingSnoc | mitre.py:62-63 | The matches for a key keep the right table's order: one more right row adds itself at the end exactly when its key matches. |
| Mitre.LeftJoinSnoc | mitre.py:62-63 | The merge lists each left row's rows in turn, in left-table order: one more left row appends exactly its own rows. |
| Mitre.LeftJoinLength | mitre.py:62-63 | The merge has, for each left row, max(1, number of matches) rows and no others. |
| Mitre.LeftJoinSound | mitre.py:62-63 | Every merged row comes from a left row, and a right part has that row's key. A missing right part means no right row has the key. |
| Mitre.LeftJoinComplete | mitre.py:62-63 | The merge has at least as many rows as the left table. Every left row and every matching pair appears. |
| Mitre.MapRelationshipsCover | mitre.py:62-63 | Every "mitigates" relationship yields at least one output row, and every row stems from one. |
| Mitre.MapRelationshipsTechnique | mitre.py:62 | A row's technique has `stix_id == target_ref`, and it is empty only when no technique has it. |
| Mitre.MapRelationshipsMitigation | mitre.py:63 | A row's mitigation has `stix_id == source_ref`, and it is empty only when no mitigation has it. |
| Mitre.MapRelationshipsControls | mitre.py:66-67 | The NIST columns are the mapping-table entries for the technique's and the mitigation's ATT&CK ids. Each is absent iff the id is absent or not in the table. |
| Mitre.RunMitreChecks | mitre.py:6-74 | The table the checks build before printing is `MitreChecksSpec`. A missing "objects" is a `KeyError`, and the three passes' errors come in pass order. An empty collected list then makes a merge raise, as `MergeFrames` states. Otherwise the result is the joined and mapped table. |
| Mitre.MergeFrames | mitre.py:57-63 | The merges succeed iff relationships, techniques and mitigations are all non-empty. An empty list gives a column-less DataFrame: the error is `KeyError("target_ref")` exactly when there are no relationships but there are techniques, and `KeyError("stix_id")` otherwise (no techniques, or no mitigations). Success is the joined and mapped table. |
| Mitre.EmptyBundleRaises | mitre.py:57-62 | A bundle with no objects raises `KeyError("stix_id")` at the first merge. |
| Mitre.MitreChecksRows | mitre.py:62-63 | A successful run has at least one row. |
| Api.FindTechniqueKey | backend/api.py:44-48 | The found technique is the first whose id, upper-cased, equals the key. Techniques without an id never match. There is none iff no technique matches. |
| Api.FindControlKey | backend/api.py:68-72 | The found control is the first whose id, upper-cased, equals the key. There is none iff no control matches. |
| Api.LookupIgnoresCaseAndPadding | backend/api.py:44 | Both lookups (lines 44 and 68) give the same row for queries that differ only in letter case or surrounding whitespace. |
| Api.TechniqueToNist | backend/api.py:41-63 | An unknown id is a successful response: it echoes `q.upper()` untrimmed, with no name and empty `exact` and `semantic`. A known id gives `name` = the technique's name and `exact` = []. `semantic` has one entry per hit of the top-10 search of its description, in hit order, built from the control at the hit's position, with the hit's score. A hit past the last control is the first `IndexError`. The call succeeds whenever the search is sound and the embeddings match the catalog. |
| Api.NistToTechnique | backend/api.py:65-87 | The same for a control id: `name` is the control's family and entries come from the technique rows the hits name. |
| Search.TopKSemantic | backend/api.py:35-38 | Under a sound search and a non-negative `top_k`, `_topk_semantic` gives at most `top_k` hits, each naming a row of the searched collection. |
| Search.FirstOutOfRange | backend/api.py:54-55 | The first hit whose `corpus_id` is past the catalog's end. There is none iff all hits are in range. |
| Search.Resolve | backend/chat_api.py:33-37 | The match list comprehension gives one value per hit, in hit order, built from the named row and the score. It fails iff some hit is out of range, with the first such hit's `IndexError`. |
| ChatApi.RouteOfSpec | backend/chat_api.py:22-66 | Mapping only in mode "map". A technique id is tried before a control id, both compared exactly with `message.strip().upper()`, and the first matching row is taken. An unknown id in map mode falls through to the audit test and then to QA. The audit branch is taken iff mode is "audit" or the lowered text starts with "audit ". |
| ChatApi.FindTechniqueExact | backend/chat_api.py:26 | The technique found is the first whose id equals the key exactly; there is none iff no technique's id equals it. |
| ChatApi.FindControlExact | backend/chat_api.py:41 | The control found is the first whose id equals the key exactly; there is none iff no control's id equals it. |
| ChatApi.ControlRow | backend/chat_api.py:80 | A NIST row has every key the QA answer packs. |
| ChatApi.TechniqueRow | backend/chat_api.py:81 | A technique row has every key the QA answer packs. |
| ChatApi.Pack | backend/chat_api.py:70-75 | `pack` returns `PackSpec(rows, hits, keys)`. The first failing hit ends it. |
| ChatApi.PackOneSpec | backend/chat_api.py:73-74 | One hit's dictionary succeeds iff the hit is in range and the row has every key. It then holds exactly the keys plus "score". The score is the hit's, and the other keys are copied from the row. |
| ChatApi.PackSpecShape | backend/chat_api.py:70-75 | `pack` succeeds iff every hit is in range and every named row has the keys. It then returns one dictionary per hit, in hit order. |
| ChatApi.PackErrorKinds | backend/chat_api.py:70-75 | `pack` raises only `IndexError` or `KeyError`. |
| ChatApi.CatalogRowsHaveKeys | backend/chat_api.py:80-81 | Packing the catalogs with the QA keys fails only on a hit past the catalog's end. |
| ChatApi.Chat | backend/chat_api.py:22-82 | The endpoint returns `ChatSpec(m, s)`. The method follows the source's guarded early returns statement by statement and calls the `pack` loop (`Pack`); `ChatSpec` is the same answer as one expression, used by the lemmas. |
| ChatApi.MappingReply | backend/chat_api.py:26-53 | A mapping reply echoes the upper-cased id and the found row's name (or description). It has one match per hit of the caller's `top_k` search, in hit order, from the named row of the other catalog with its score. It succeeds iff every hit is in range. |
| ChatApi.MappingNeedsMapMode | backend/chat_api.py:27-42 | Outside "map" mode no mapping reply is produced. |
| ChatApi.AuditReply | backend/chat_api.py:56-63 | The audit payload is the text after the first space, or `{}` without a space. An unparsable payload is a 400 with the usage hint. Otherwise the reply is the audit service's answer. |
| ChatApi.AuditPrefixHasSpace | backend/chat_api.py:56-59 | A message starting with "audit " splits at position 5. |
| ChatApi.BadRequestOnlyFromAudit | backend/chat_api.py:57-61 | A 400 arises only in the audit branch from an unparsable payload. |
| ChatApi.RetrievalReply | backend/chat_api.py:66-82 | QA searches both catalogs with the stripped text and a fixed top_k of 3, whatever the caller's `top_k`. It packs the NIST and MITRE candidates, one per hit, and succeeds iff all hits are in range. |
| ChatApi.ChatTotal | backend/chat_api.py:22-82 | With a sound search, embeddings that match the catalogs and a non-negative `top_k`, chat fails only with the 400 of an unparsable audit payload. This assumes the audit POST and its `r.json()` answer (see Left out). |

## Left out

- Network and disk I/O are not modelled: `requests.get` of the catalogs, the audit passthrough POST, and pickle read/write of the cache. The fetched documents are parameters. The POST is the function `Service.audit`. The cache store is a `map` from path to embeddings.
- The embedder and `semantic_search` are supplied functions (`Search.Model`). Ranking, tie-breaking and float tensors are not modelled. `mitre.embedder` and `nist.embedder` are taken to be the same encoder.
- `json.loads` is the supplied function `Service.parse`. It returns None where the source raises.
- JSON documents are typed. A key of the wrong JSON type is not modelled; only present and absent keys are.
- backend/mitre.py (`load_mitre`, `cache_embeddings`, `embedder` on the MITRE side) is not part of this model. The technique catalog the endpoints read is the `Mitre.Technique` table built by mitre.py's extraction.
- mitre.py's `from nist import nist_mapping` names a table nist.py does not define. The mapping table is a parameter.
- The print of the joined table (mitre.py:70-74), the CLIs (main.py, backend/main.py), the React frontend, and the FastAPI app, router and CORS plumbing are not modelled.
- pandas specifics are not modelled. DataFrames are sequences of records, NaN is `None`, `merge` is a plain left join without column-suffix renaming, and a missing `text_column` is not modelled (`textColumn` is a projection).
- PasswordMfa.RunAudit: `round(overall, 3)` is modelled as half-up rounding on exact reals, while Python rounds binary floats half-to-even. Weights and scores are exact rationals, so the risk thresholds compare exact values.
- PasswordMfa.RunAudit: pydantic validation of the request (types, `min_length >= 0`) is not modelled; `minLength` is a `nat`.
- ChatApi.ChatTotal: the audit POST (chat_api.py:62) and `r.json()` (chat_api.py:63) are the total function `Service.audit`, so a connection error, a timeout or a non-JSON reply is not modelled; the lemma holds only under that assumption.
- ChatApi.Chat: a negative `top_k` makes `semantic_search` raise; the model calls the supplied search anyway, and `SearchSound` assumes nothing of it, so `ChatTotal` requires `top_k >= 0`.
- Mitre.RunMitreChecks: the function prints the first 10 rows of six columns and returns None; the model returns the table it would print.
- Api.TechniqueToNist, Api.NistToTechnique and ChatApi.Chat: an empty catalog gives a DataFrame without columns, so the id filters (backend/api.py:44, backend/api.py:68, backend/chat_api.py:26, backend/chat_api.py:41) raise `KeyError` on the missing column; the model treats an empty catalog as "not found".
- Mitre.RunMitreChecks: the `KeyError` of a merge with a column-less side names the right key ("stix_id") before the left key ("target_ref"), the order in which pandas resolves merge keys; the pandas version is not pinned.
- Text.Upper and Text.Lower change only ASCII letters, while Python's `upper()` and `lower()` are Unicode-aware.
- ChatApi.Chat: the reply's fixed type and direction strings ("mapping", "MITRE→NIST", "qa") are represented by the `ChatReply` constructors.
- Api.TechniqueToNist and Api.NistToTechnique: `float(h["score"])` is the identity on the real score.
- Import-time warm loading in backend/api.py and backend/chat_api.py is not modelled. The loaded catalogs and embeddings are parameters.
