# SHL assessment recommender: ranking, normalisation and catalog field rules

This project is a Dafny model of the core of a small assessment recommender. The recommender is a Streamlit front end and a Flask back end over a vector index of SHL catalog records, together with the ingestion script that scrapes and stores those records.

What is modelled:

- **Normaliser** (`Normalizer`). It expands test-type codes through the fixed eight-entry table and collapses an adaptive support of "unknown", in any case, to "No". It formats a stored record into the seven-key recommendation, filling in defaults only for absent keys.
- **Ranking** (`Ranking`, `StreamlitApp`, `Backend`):
  - the flat +0.15 boost when the request's test types meet the record's;
  - Python's stable descending sort;
  - the `[:k]` slice, with Python's rules for negative `k`;
  - the formatting loop.

  The front end, `get_recommendations`, cuts the list to `k`. The back end, `recommend`, rejects an empty query and does not cut. It maps every exception, including a missing key, to a 500 response.
- **LLM reply post-processing** (`LlmTags`). Test-type letters are extracted from a classification reply. Job roles are split out of a roles reply. A failed call replies "Unknown".
- **Scraper field rules** (`Ingest`):
  - the test-type letters read by OCR from the page images;
  - the remote-testing icon rule;
  - the comma-separated job levels and languages with their defaults;
  - the first digit run as the duration;
  - the OCR-or-LLM test-type fallback and the LLM job-role fallback;
  - the fixed record used when the page cannot be processed;
  - the id and metadata of each upserted record.

What each part of the model stands for:

- **Index answer.** The embedding of the query and the vector index are outside the model. The index's answer to the one query made is a parameter: its `(score, metadata)` matches, or the message of the exception it raised.
- **Index call.** The methods return the `top_k` they query the index with. `Backend.Recommend` returns `None` when it rejects the request before any index call.
- **LLM and OCR.** LLM replies are string parameters. OCR results are optional strings. A page lookup is an optional value: the header is absent, or the header is present and the element after it may be missing.
- **Loops.** The boost, formatting and image loops are methods with a `for` loop, each proved equal to a function the properties are proved about:
  - the boost loops (streamlit_app.py:45-50, backend_after_ingest.py:62-71) are `Ranking.BoostMatches`, proved equal to `Ranking.BoostAll`;
  - the formatting loops (streamlit_app.py:54-64, backend_after_ingest.py:78-87) are `Ranking.FormatRanked`, proved equal to `Ranking.FormatAll`;
  - the image loop of `extract_test_type_images` (ingest.py:54-63) is `Ingest.ExtractTestTypeImages`, proved equal to `Ingest.TestTypeCodes`.

  `StreamlitApp.GetRecommendations` and `Backend.Recommend` are the methods for the two functions that run those loops. The upsert loop (ingest.py:159-173) is modelled by the function `Ingest.Records`, a sequence comprehension with one record per row.

Behaviours of the code that the model keeps:


- the back end returns every retrieved match, up to `2k` of them, rather than the first `k`;
- equal scores keep the index's order (Python's stable sort), not an id order;
- the front end lets an index failure propagate as an exception;
- a record without `url` or `name` makes the back end answer 500 with the quoted key;
- `k` is not checked to be positive;
- a present "Languages" header with no item gives an empty language list.

The boost can change the order: a record at 0.6 whose test types overlap the request ends at 0.75 and is ranked before an unboosted record at 0.7 (`Ranking.BoostOvertakes`).

## Model

| member | source | states |
|---|---|---|
| Normalizer.TestTypeName | streamlit_app.py:31-32 | the name is not "Unknown" exactly when the code is in the table, and it is then the table's entry |
| Normalizer.MapTestTypes | streamlit_app.py:31-32 | total; keeps length and order; each position is the table entry for a known code and "Unknown" for any other |
| Normalizer.TestTypeNameInvertible | streamlit_app.py:20-29 | no two codes share a display name: a known code is recovered from its name |
| Normalizer.MapTestTypesInvertible | streamlit_app.py:20-32 | on codes from the table, the code list is recovered position by position from the expanded list |
| Normalizer.NormalizeAdaptive | streamlit_app.py:34-37 | the value changes exactly when it lower-cases to "unknown"; it then becomes "No"; the result never lower-cases to "unknown" |
| Normalizer.NormalizeAdaptiveIdempotent | backend_after_ingest.py:38-42 | normalising twice equals normalising once |
| Normalizer.UnknownAdaptiveIsNo | backend_after_ingest.py:38-42 | the value "Unknown" is normalised to "No" |
| Normalizer.Format | streamlit_app.py:55-63 | fails exactly when `url` or `name` is absent, naming "url" first; otherwise each absent key gets its default ("No", "", 0, "No", []) and each present one passes through, with adaptive support normalised and codes expanded |
| Normalizer.TestTypesOf | streamlit_app.py:62 | `m.get("test_type", [])`: the stored codes, or none |
| Normalizer.UnknownAsymmetry | streamlit_app.py:58-61 | a stored adaptive support of "Unknown" is shown as "No", while a stored remote support of "Unknown" is shown as "Unknown" |
| Ranking.AdjustedScore | streamlit_app.py:47-49 | the adjusted score is at least the base; it is base + 0.15 exactly when some requested tag is among the record's test types, and the base otherwise (added once) |
| Ranking.Overlaps | streamlit_app.py:48 | `any(t in tags for t in requested)`: some requested tag is among the record's tags |
| Ranking.BoostAll | streamlit_app.py:45-50 | one match per match, metadata kept, each score raised by at most 0.15 and never lowered |
| Ranking.FetchSize | streamlit_app.py:42 | `top_k = k*2` |
| Ranking.Message | backend_after_ingest.py:93 | `str(e)`: an index failure's own message; a KeyError's key in single quotes |
| Ranking.NoTagsNoBoost | streamlit_app.py:40-50 | with an empty requested list, every match keeps its score |
| Ranking.BoostMatches | backend_after_ingest.py:60-71 | the loop keeps every match's metadata and order; each score is raised by 0.15 exactly on overlap, so never lowered |
| Ranking.Insert | streamlit_app.py:52 | inserting into a non-increasing list keeps it non-increasing, grows it by one and puts the new element first exactly when its score is at least the old head's |
| Ranking.InsertPermutes | streamlit_app.py:52 | insertion adds exactly the one element (multiset of the result is the old one plus it) |
| Ranking.Rank | streamlit_app.py:52 | the ranking is non-increasing in score and as long as its input |
| Ranking.RankPermutes | streamlit_app.py:52 | the ranking is a permutation (same multiset) of its input |
| Ranking.RankIsStable | streamlit_app.py:52 | for every score, the matches with that score appear in the ranking in the order the index returned them |
| Ranking.SortedWithSameTiesAreEqual | backend_after_ingest.py:74 | two non-increasing lists with the same ties in the same order are equal |
| Ranking.RankIsTheStableSort | streamlit_app.py:52 | any non-increasing arrangement keeping ties in index order is `Rank(s)`: the stable descending sort is unique |
| Ranking.BoostOvertakes | streamlit_app.py:45-52 | a boosted record at 0.6 is ranked before an unboosted one at 0.7 |
| Ranking.Take | streamlit_app.py:54 | `xs[:k]` is a prefix of length min(k, n) for k >= 0, and max(n + k, 0) for negative k |
| Ranking.FormatAll | streamlit_app.py:53-64 | on success, the records are formatted position by position; it fails exactly when some record fails, with the key of the first failing record |
| Ranking.FormatAllFirstFailure | backend_after_ingest.py:78-81 | the first record lacking a key decides the error, whatever follows it |
| Ranking.FormatAllTake | streamlit_app.py:54 | formatting a prefix of a list that formats gives the same prefix of its output |
| Ranking.FormatRanked | backend_after_ingest.py:77-87 | the formatting loop with its early exit computes `FormatAll` of the ranked list; on success, one entry per ranked record |
| StreamlitApp.GetRecommendations | streamlit_app.py:40-64 | queries with `top_k = 2k`; an index failure propagates; on success, at most k entries and at most one per match; the result is the specification `Recommendations` |
| StreamlitApp.Recommendations | streamlit_app.py:40-64 | the front end's result for an index answer: the index failure, the KeyError of the first formatted record without a key, or the formatted first k of the ranked boosted matches |
| StreamlitApp.ResultLength | streamlit_app.py:54 | a successful result has min(k, n) entries for n matches and k >= 0 (Python's slice length otherwise), so never more than the index returned |
| StreamlitApp.ResultIsRankedPrefix | streamlit_app.py:52-63 | entry i is the formatted record at position i of the ranking; the ranking is non-increasing, a permutation of the boosted matches and stable |
| StreamlitApp.ShorterRequestIsPrefix | streamlit_app.py:54 | for one index answer, asking for fewer results gives a prefix of asking for more |
| StreamlitApp.MissingUrlRaises | streamlit_app.py:56 | when the top-ranked record lacks `url`, the call raises KeyError('url') |
| Backend.Recommend | backend_after_ingest.py:46-93 | the index is queried, with `top_k = 2k`, exactly when the query is non-empty; the response is `RecommendResponse` |
| Backend.QueryText | backend_after_ingest.py:48 | `data.get("query", "")` |
| Backend.Wanted | backend_after_ingest.py:49 | `int(data.get("k", 5))` on an integer or absent `k` |
| Backend.RequestedTags | backend_after_ingest.py:67 | `data.get("test_type", [])` |
| Backend.RecommendResponse | backend_after_ingest.py:46-93 | 400 for an empty query; 500 with the message for an index failure or a missing key; otherwise 200 with every ranked match formatted |
| Backend.HealthCheck | backend_after_ingest.py:96-99 | always `({"status": "healthy"}, 200)` |
| Backend.EmptyQueryRejected | backend_after_ingest.py:48-52 | an empty or missing query gives `({"error": "Query is required"}, 400)` whatever the index would answer |
| Backend.StatusMatchesBody | backend_after_ingest.py:51-93 | the status is 200, 400 or 500; 200 exactly with recommendations; 400 exactly for an empty query; an index exception gives a 500 with its message and never a success |
| Backend.MissingKeyIs500 | backend_after_ingest.py:78-93 | a ranked record without `url` or `name` turns the response into a 500 whose message is the quoted key of the first such record |
| Backend.SuccessListsEveryMatch | backend_after_ingest.py:74-89 | no truncation: a success lists exactly one formatted entry per match, at most 2k when the index honours `top_k`, in the stable non-increasing ranking |
| Backend.FrontEndIsPrefixOfBackEnd | backend_after_ingest.py:74-89 | for the same answer and tags, the front end's result is the back end's successful list cut to k |
| LlmTags.Letters | utils.py:54 | the letters found are exactly the characters of the text that are code letters |
| LlmTags.Distinct | utils.py:55 | same members as its input, with no repeats |
| LlmTags.CodeTags | utils.py:55 | distinct one-letter strings, one per letter found; empty exactly when no letter is found |
| LlmTags.ClassifyTestTypes | utils.py:51-55 | never empty; ["Unknown"] exactly when the upper-cased reply has no code letter; otherwise distinct one-letter codes, each letter present exactly when it occurs in the upper-cased reply |
| LlmTags.ClassifyIgnoresCase | utils.py:54 | lower-casing or upper-casing the reply does not change the classification |
| LlmTags.FailedClassificationIsK | utils.py:39-55 | the failure reply "Unknown" does not classify as ["Unknown"]: "K" is in the result and is its only element |
| LlmTags.PredictJobRoles | utils.py:44-48 | never empty; every role is non-empty and stripped; ["General Roles"] when every stripped piece is empty; otherwise exactly `StrippedNonEmpty` of the split reply, order and repeats included |
| LlmTags.RolesOrFallback | utils.py:47-48 | `roles or ["General Roles"]` over given pieces, with the same guarantees as `PredictJobRoles` stated on the stripped pieces |
| LlmTags.RolePieces | utils.py:47 | the stripped pieces between the `,` and `/` of a reply, empty ones included |
| LlmTags.RolesInOrder | utils.py:47 | a `,` or `/` splits the roles into those before it followed by those after it |
| LlmTags.GeneralRolesMeansNoOtherPiece | utils.py:47-48 | a result of ["General Roles"] means every piece was empty or was literally "General Roles" |
| LlmTags.RolesAvoidSeparators | utils.py:47 | no stripped piece contains "," or "/" |
| LlmTags.FailedRolesAreUnknown | utils.py:41-48 | the failure reply "Unknown" gives the roles ["Unknown"], not ["General Roles"] |
| Ingest.ImageLetters | ingest.py:52-63 | every collected character is a code letter |
| Ingest.ImageText | ingest.py:55-61 | the stripped, upper-cased OCR text of an image with a `src` whose OCR succeeds, and nothing for any other |
| Ingest.LetterOfStrippedUpper | ingest.py:60-61 | stripping before upper-casing loses no code letter |
| Ingest.LettersOfImage | ingest.py:55-63 | an image contributes a letter exactly when its `src` is non-empty, its OCR succeeds and the letter occurs in its upper-cased text |
| Ingest.ImageLettersMembers | ingest.py:52-63 | a code letter is collected exactly when some read image's upper-cased OCR text holds it |
| Ingest.TestTypeCodes | ingest.py:43-64 | [] without the "Test Type" header or its div; otherwise distinct one-letter codes |
| Ingest.TestTypeCodesMembers | ingest.py:52-64 | with a div, a letter is in the result exactly when some read image's upper-cased OCR text holds it |
| Ingest.UnreadImagesIgnored | ingest.py:55-63 | an image without `src`, or whose download or OCR fails, changes nothing |
| Ingest.ExtractTestTypeImages | ingest.py:43-64 | the loop over the images computes `TestTypeCodes` |
| Ingest.RemoteSupport | ingest.py:66-78 | "Unknown" exactly without the header or an icon; "Yes" exactly when the lower-cased `src` contains "green"; otherwise "No" |
| Ingest.RemoteSupportIgnoresCase | ingest.py:74 | an upper-cased `src` gives the same answer |
| Ingest.RemoteSupportEmptySource | ingest.py:73-77 | an icon with an absent or empty `src` gives "No", not "Unknown" |
| Ingest.HeaderList | ingest.py:96-109 | the default without a header; a failure exactly when the header has no following element; otherwise the non-empty stripped comma pieces |
| Ingest.HeaderItems | ingest.py:99 | the items are non-empty, stripped and free of commas, and are exactly the non-empty stripped pieces |
| Ingest.HeaderItemsInOrder | ingest.py:99 | a comma splits the items into those before it followed by those after it; text without a comma is one stripped item, or none when blank |
| Ingest.Duration | ingest.py:112-117 | never negative; 0 without a header or without a digit; otherwise the value of the first digit run |
| Ingest.DurationOf | ingest.py:114-115 | digit-free text followed by a digit run and a non-digit reads as the run's value |
| Ingest.DescriptionText | ingest.py:92-93 | "No description" without a header; a failure exactly when no `<p>` follows it; otherwise the paragraph's text |
| Ingest.Processable | ingest.py:92-109 | the page has every element the code dereferences: a `<p>` after the description header and an element after the job-levels and languages headers when those headers exist |
| Ingest.FailureRecord | ingest.py:143-155 | keeps the url, with duration 0, test type ["Unknown"], adaptive and remote support "Unknown" |
| Ingest.FetchMetadata | ingest.py:80-141 | keeps the url; adaptive support is always "Unknown"; duration is non-negative; test type and job roles are never empty; remote support is "Yes", "No" or "Unknown"; a failed request or a missing element gives the failure record |
| Ingest.TestTypeIsCodesOrUnknown | ingest.py:122-125 | a stored test type is ["Unknown"] or distinct one-letter codes |
| Ingest.FieldsOfProcessablePage | ingest.py:87-141 | every field of a processable page: the url kept, adaptive support "Unknown", name, description, duration and remote support from their lookups, test type from OCR or else the classification reply, job roles from the header list unless it is empty, else the roles reply, and languages the header list (the comma-split, stripped, non-empty pieces), "English" without the header |
| Ingest.ClassifyReplyOnlyWithoutOcr | ingest.py:123-125 | when OCR yields codes, the classification reply has no effect |
| Ingest.EmptyJobLevelsUseLlm | ingest.py:128-129 | a job-levels text with no item falls back to the LLM roles |
| Ingest.EmptyLanguagesStayEmpty | ingest.py:104-109 | a languages header with empty text gives an empty language list (no fallback) |
| Ingest.FailedRequestRecord | ingest.py:143-155 | a failed request gives the fixed generic record |
| Ingest.UpsertRecord | ingest.py:159-173 | the id is the decimal numeral of the row number, with no leading zero; the query is the stripped `Query` cell; the metadata is the fetched record |
| Ingest.Records | ingest.py:158-173 | one record per row, row i built from row i |
| Ingest.RecordIdsDistinct | ingest.py:166-167 | no two rows share an id |
| Ingest.Stored | ingest.py:166-173 | a stored record has both `url` and `name` |
| Ingest.ScrapedRecordShown | ingest.py:131-141 | every scraped record formats successfully: adaptive support is shown as "No", remote support as scraped, duration non-negative, codes expanded |
| Ingest.StoredRecordShown | ingest.py:159-173 | an upserted record whose adaptive support is "Unknown" formats successfully with url, remote support, duration and codes carried over and adaptive support "No" |
| Strings.LowerOfUpper | ingest.py:74 | lower-casing after upper-casing equals lower-casing |
| Strings.UpperOfLower | utils.py:54 | upper-casing after lower-casing equals upper-casing |
| Strings.UpperIdempotent | utils.py:54 | upper-casing is idempotent |
| Strings.Lower | ingest.py:74 | `s.lower()` character by character, on ASCII |
| Strings.Upper | utils.py:54 | `s.upper()` character by character, on ASCII |
| Strings.Contains | ingest.py:74 | `sub in s`: `sub` occurs at some position of `s` |
| Strings.DigitsValue | ingest.py:114-115 | the decimal value of a digit string, as `int()` reads it |
| Strings.StripAll | utils.py:47 | each piece stripped, same length and order |
| Strings.Strip | utils.py:47 | the result is stripped and is a slice of the input with only whitespace cut from both ends |
| Strings.NonSpaceKept | utils.py:47 | `strip()` keeps every non-whitespace character |
| Strings.StripOfStripped | utils.py:47 | stripping an already stripped string changes nothing |
| Strings.StripIdempotent | utils.py:47 | `strip()` is idempotent |
| Strings.Split | utils.py:47 | one more piece than separators, and no piece holds a separator |
| Strings.SplitAt | utils.py:47 | a separator cuts the text in two: the pieces of `a + [c] + b` are those of `a` followed by those of `b`, for any separator set |
| Strings.SplitCons | utils.py:47 | a separator in front adds an empty first piece; any other character joins the first piece |
| Strings.SplitWithoutSeparators | utils.py:47 | text without a separator is a single piece |
| Strings.JoinSplit | ingest.py:99 | joining the pieces of a split on one character gives the text back |
| Strings.StrippedNonEmpty | ingest.py:99 | every item is non-empty and stripped, and the items are exactly the non-empty stripped pieces |
| Strings.StrippedNonEmptyOne | utils.py:47 | a single piece gives its stripped text, or nothing when that is empty |
| Strings.StrippedNonEmptyAppend | utils.py:47 | the filter keeps order and repeats: the items of `a + b` are those of `a` followed by those of `b` |
| Strings.StrippedNonEmptyIsEmpty | utils.py:47-48 | no item survives exactly when every stripped piece is empty |
| Strings.StrippedNonEmptyAvoids | ingest.py:99 | items of pieces free of a separator are free of it |
| Strings.FirstNumber | ingest.py:114-115 | no number exactly when the text has no digit |
| Strings.FirstNumberOf | ingest.py:114-115 | the first number of digit-free text, then digits, then a non-digit, is the digits' value |
| Strings.NatToString | ingest.py:167 | `str(i)` is a non-empty string of digits that starts with '0' only for 0 |
| Strings.NatToStringRoundTrip | ingest.py:167 | the numeral reads back as the number |
| Strings.NatToStringInjective | ingest.py:167 | different numbers have different numerals |

## Left out

- The Streamlit page, its single-query and batch CSV modes and its download button: presentation and file I/O.
- Flask routing, `request.get_json()`, `jsonify` and `app.run`. The request is three optional fields, the response a body with a status.
- JSON values of the wrong type. For example, a `k` that `int()` rejects raises outside the `try` and is not modelled.
- Pinecone client creation, `create_index`, `upsert` and `query`. The index answer is a parameter, and a failure is a message.
- The sentence-transformer embedding. Its vectors are never inspected. An embedding failure, which happens outside the `try` in the back end, is not modelled.
- The Groq HTTP request and its payload. A reply is any string, and "Unknown" stands for a failed call.
- Page download and HTML navigation (BeautifulSoup), image download and Tesseract OCR, CSV loading, dotenv and secrets. In the model, each lookup gives what it finds and each OCR result is an optional text.
- Scores are exact reals. Floating-point rounding of `score + 0.15` is not modelled.
- Only ASCII case folding, whitespace and digits are modelled. Unicode `lower()`, `upper()`, `isspace()` and `\d` are wider.
- The order of `list(set(...))` is not fixed by Python. `LlmTags.Distinct` keeps the last occurrence of each letter, and the contracts speak only of membership and distinctness.
- The DataFrame row label is taken to be the row position 0, 1, 2, …, which is the default index of `read_csv`.
- `str(row["Query"])` of a missing cell ("nan") is not modelled.
- The `print` logging in the `except` branches (backend_after_ingest.py:92, ingest.py:144, utils.py:40), and the other progress prints: console output only.
- The default arguments `k=5` and `test_type=[]` of `get_recommendations` (streamlit_app.py:40): the model always takes both explicitly.
- The `.strip()` of the `Assessment_url` cell before fetching (ingest.py:161): `Ingest.Records` takes each row's fetched metadata as given.
