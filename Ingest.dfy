/**
 * The field rules of the catalog scraper: what each lookup on an assessment
 * page turns into in the stored metadata record, the fixed record used when
 * the page cannot be processed, and the records that are upserted into the
 * vector index. The HTML navigation, the image download and the OCR are
 * outside the model: each lookup is given by what it finds.
 */
module Ingest {

  import opened Wrappers
  import opened Strings
  import LlmTags
  import Normalizer

  /**
   * A header lookup, `soup.find(string=...)`, followed by a `find_next(...)`
   * from it: either no header, or the header and whatever element follows it
   * (`None` when nothing follows).
   */
  datatype Lookup<T> = NoSection | Section(next: Option<T>)

  /**
   * An `<img>` of the test-type area: its `src` attribute, and the text OCR
   * reads from the downloaded image, `None` when the download or the OCR raises.
   */
  datatype Image = Image(src: Option<string>, ocrText: Option<string>)

  /** The icon next to "Remote Testing": its `src` attribute. */
  datatype Icon = Icon(src: Option<string>)

  // ---------------------------------------------------------------------------
  // extract_test_type_images
  // ---------------------------------------------------------------------------

  /** `if src:` — an absent or empty `src` is not downloaded. */
  predicate HasSource(img: Image) {
    img.src.Some? && img.src.value != ""
  }

  /** The image is downloaded and read: a non-empty `src` whose OCR succeeds. */
  predicate IsRead(img: Image) {
    HasSource(img) && img.ocrText.Some?
  }

  /** `image_to_string(...).strip().upper()` of a read image; nothing for any other. */
  function ImageText(img: Image): string {
    if IsRead(img) then Upper(Strip(img.ocrText.value)) else ""
  }

  /** The letters `codes.extend(...)` collects from the images, in order, repeats included. */
  function ImageLetters(imgs: seq<Image>): (r: seq<char>)
    ensures forall c :: c in r ==> LlmTags.IsTestTypeLetter(c)
  {
    if imgs == [] then []
    else ImageLetters(imgs[..|imgs| - 1]) + LlmTags.Letters(ImageText(imgs[|imgs| - 1]))
  }

  /** Whitespace is no letter and survives upper-casing unchanged. */
  lemma SpaceUpper(x: char)
    requires IsSpace(x)
    ensures UpperChar(x) == x && !LlmTags.IsTestTypeLetter(x)
  {
  }

  /** Stripping removes only whitespace, so it loses no code letter of the upper-cased text. */
  lemma LetterOfStrippedUpper(t: string, c: char)
    requires LlmTags.IsTestTypeLetter(c)
    ensures c in Upper(Strip(t)) <==> c in Upper(t)
  {
    var s := Strip(t);
    if c in Upper(s) {
      var m :| 0 <= m < |s| && Upper(s)[m] == c;
      assert s[m] in t;
      var k :| 0 <= k < |t| && t[k] == s[m];
      assert Upper(t)[k] == c;
    }
    if c in Upper(t) {
      var k :| 0 <= k < |t| && Upper(t)[k] == c;
      if IsSpace(t[k]) {
        SpaceUpper(t[k]);
      }
      NonSpaceKept(t, k);
      var m :| 0 <= m < |s| && s[m] == t[k];
      assert Upper(s)[m] == c;
    }
  }

  /** OCR of `img` succeeds and its upper-cased text holds `c`. */
  predicate ReadsLetter(img: Image, c: char) {
    IsRead(img) && c in Upper(img.ocrText.value)
  }

  /** The letters one image contributes. */
  lemma LettersOfImage(img: Image, c: char)
    ensures c in LlmTags.Letters(ImageText(img)) <==> LlmTags.IsTestTypeLetter(c) && ReadsLetter(img, c)
  {
    if IsRead(img) && LlmTags.IsTestTypeLetter(c) {
      LetterOfStrippedUpper(img.ocrText.value, c);
    }
  }

  /** Some image of `imgs` is read and its upper-cased OCR text holds `c`. */
  predicate SomeImageReads(imgs: seq<Image>, c: char) {
    exists k :: 0 <= k < |imgs| && ReadsLetter(imgs[k], c)
  }

  /** Some image reads `c` iff one before the last does or the last one does. */
  lemma SomeImageReadsSplit(imgs: seq<Image>, c: char)
    requires imgs != []
    ensures SomeImageReads(imgs, c) <==>
      SomeImageReads(imgs[..|imgs| - 1], c) || ReadsLetter(imgs[|imgs| - 1], c)
  {
    var init := imgs[..|imgs| - 1];
    if SomeImageReads(imgs, c) {
      var k :| 0 <= k < |imgs| && ReadsLetter(imgs[k], c);
      assert k < |init| ==> init[k] == imgs[k];
    }
    if SomeImageReads(init, c) {
      var k :| 0 <= k < |init| && ReadsLetter(init[k], c);
      assert imgs[k] == init[k];
    }
  }

  /** The letters collected from `imgs` are those collected before the last image and from it. */
  lemma ImageLettersSplit(imgs: seq<Image>, c: char)
    requires imgs != []
    ensures c in ImageLetters(imgs) <==>
      c in ImageLetters(imgs[..|imgs| - 1]) || c in LlmTags.Letters(ImageText(imgs[|imgs| - 1]))
  {
  }

  /** A code letter is collected iff it occurs in the upper-cased OCR text of some read image. */
  lemma {:induction false} ImageLettersMembers(imgs: seq<Image>, c: char)
    ensures c in ImageLetters(imgs) <==> LlmTags.IsTestTypeLetter(c) && SomeImageReads(imgs, c)
  {
    if imgs != [] {
      ImageLettersMembers(imgs[..|imgs| - 1], c);
      LettersOfImage(imgs[|imgs| - 1], c);
      ImageLettersSplit(imgs, c);
      SomeImageReadsSplit(imgs, c);
    }
  }

  /**
   * `extract_test_type_images(soup)`: nothing without a "Test Type" header or
   * without a `<div>` after it, otherwise `list(set(codes))` of the collected
   * letters, as one-letter strings.
   */
  function TestTypeCodes(area: Lookup<seq<Image>>): (r: seq<string>)
    ensures !(area.Section? && area.next.Some?) ==> r == []
    ensures forall i :: 0 <= i < |r| ==> |r[i]| == 1 && LlmTags.IsTestTypeLetter(r[i][0])
    ensures forall i, j :: 0 <= i < j < |r| ==> r[i] != r[j]
  {
    match area
    case NoSection => []
    case Section(None) => []
    case Section(Some(imgs)) => LlmTags.CodeTags(ImageLetters(imgs))
  }

  /**
   * With a test-type area, the result holds exactly the code letters read
   * from some image whose `src` is set and whose download and OCR succeed.
   */
  lemma TestTypeCodesMembers(imgs: seq<Image>, c: char)
    ensures [c] in TestTypeCodes(Section(Some(imgs))) <==>
      LlmTags.IsTestTypeLetter(c) && SomeImageReads(imgs, c)
  {
    ImageLettersMembers(imgs, c);
  }

  /** Images without `src`, or whose download or OCR fails, change nothing. */
  lemma {:induction false} UnreadImagesIgnored(imgs: seq<Image>, img: Image)
    requires !IsRead(img)
    ensures TestTypeCodes(Section(Some(imgs + [img]))) == TestTypeCodes(Section(Some(imgs)))
  {
    assert (imgs + [img])[..|imgs|] == imgs;
    assert LlmTags.Letters("") == [];
    assert ImageLetters(imgs + [img]) == ImageLetters(imgs);
  }

  /** One more image appends the letters it contributes. */
  lemma ImageLettersStep(imgs: seq<Image>, i: nat)
    requires i < |imgs|
    ensures ImageLetters(imgs[..i + 1]) == ImageLetters(imgs[..i]) + LlmTags.Letters(ImageText(imgs[i]))
  {
    assert imgs[..i + 1][..i] == imgs[..i];
  }

  /** The loop of `extract_test_type_images` over the images of the area. */
  method ExtractTestTypeImages(area: Lookup<seq<Image>>) returns (codes: seq<string>)
    ensures codes == TestTypeCodes(area)
  {
    if area.NoSection? || area.next.None? {
      return [];
    }
    var imgs := area.next.value;
    var letters: seq<char> := [];
    for i := 0 to |imgs|
      invariant letters == ImageLetters(imgs[..i])
    {
      var img := imgs[i];
      ImageLettersStep(imgs, i);
      if img.src.Some? && img.src.value != "" {
        match img.ocrText
        case None =>
          assert LlmTags.Letters(ImageText(img)) == [];
        case Some(raw) =>
          var text := Upper(Strip(raw));
          letters := letters + LlmTags.Letters(text);
      } else {
        assert LlmTags.Letters(ImageText(img)) == [];
      }
    }
    assert imgs[..|imgs|] == imgs;
    codes := LlmTags.CodeTags(letters);
  }

  // ---------------------------------------------------------------------------
  // extract_remote_support
  // ---------------------------------------------------------------------------

  /**
   * `extract_remote_support(soup)`: "Unknown" without a "Remote Testing"
   * header or without an image after it, otherwise "Yes" exactly when the
   * lower-cased `src` (empty when absent) contains "green", and "No" otherwise.
   */
  function RemoteSupport(remote: Lookup<Icon>): (r: string)
    ensures r == "Unknown" <==> !(remote.Section? && remote.next.Some?)
    ensures r == "Yes" <==> (remote.Section? && remote.next.Some? &&
      Contains(Lower(remote.next.value.src.GetOr("")), "green"))
    ensures r == "Unknown" || r == "Yes" || r == "No"
  {
    match remote
    case NoSection => "Unknown"
    case Section(None) => "Unknown"
    case Section(Some(icon)) =>
      var src := icon.src.GetOr("");
      if Contains(Lower(src), "green") then "Yes" else "No"
  }

  /** The icon test ignores case: "GREEN" in the `src` also means "Yes". */
  lemma RemoteSupportIgnoresCase(src: string)
    ensures RemoteSupport(Section(Some(Icon(Some(Upper(src)))))) == RemoteSupport(Section(Some(Icon(Some(src)))))
  {
    LowerOfUpper(src);
  }

  /** An icon without `src`, or with an empty one, means "No", not "Unknown". */
  lemma RemoteSupportEmptySource(icon: Icon)
    requires icon.src.None? || icon.src == Some("")
    ensures RemoteSupport(Section(Some(icon))) == "No"
  {
    assert Lower("") == "";
    assert forall i: nat :: !OccursAt("", "green", i);
  }

  // ---------------------------------------------------------------------------
  // The comma-separated lists and the duration
  // ---------------------------------------------------------------------------

  /**
   * Job levels and languages: `default` without a header; `None` when the
   * header has no element after it (`find_next()` is `None` and `.get_text`
   * raises); otherwise the element's text split at ",", each piece stripped,
   * empty pieces dropped.
   */
  function HeaderList(header: Lookup<string>, default: seq<string>): (r: Option<seq<string>>)
    ensures r.None? <==> header == Section(None)
    ensures header.NoSection? ==> r == Some(default)
    ensures header.Section? && r.Some? ==> r.value == StrippedNonEmpty(Split(header.next.value, {','}))
  {
    match header
    case NoSection => Some(default)
    case Section(None) => None
    case Section(Some(text)) => Some(StrippedNonEmpty(Split(text, {','})))
  }

  /**
   * The items of a header's text: non-empty, stripped, free of commas, and
   * exactly the stripped pieces between its commas that are not empty.
   */
  lemma HeaderItems(text: string)
    ensures var items := StrippedNonEmpty(Split(text, {','}));
      && (forall i :: 0 <= i < |items| ==> items[i] != "" && IsStripped(items[i]))
      && (forall x :: x in items ==> ',' !in x)
      && (forall x :: x in items <==> x in StripAll(Split(text, {','})) && x != "")
  {
    StrippedNonEmptyAvoids(Split(text, {','}), {','});
  }

  /**
   * The items keep the order and the repeats of the text: a comma splits the
   * list into the items before it followed by the items after it, and text
   * without a comma is one item, or none when it is blank.
   */
  lemma HeaderItemsInOrder(a: string, b: string)
    ensures StrippedNonEmpty(Split(a + [','] + b, {','})) ==
      StrippedNonEmpty(Split(a, {','})) + StrippedNonEmpty(Split(b, {','}))
    ensures ',' !in a ==> StrippedNonEmpty(Split(a, {','})) == if Strip(a) != "" then [Strip(a)] else []
  {
    SplitAt(a, ',', b, {','});
    StrippedNonEmptyAppend(Split(a, {','}), Split(b, {','}));
    if ',' !in a {
      SplitWithoutSeparators(a, {','});
      StrippedNonEmptyOne(a);
    }
  }

  /**
   * `duration`: the first run of digits in the "Approximate Completion Time"
   * header text, 0 without a header or without a digit; never negative.
   */
  function Duration(header: Option<string>): (d: int)
    ensures d >= 0
    ensures header.None? || NoDigits(header.value) ==> d == 0
    ensures header.Some? && !NoDigits(header.value) ==> d == FirstNumber(header.value).value
  {
    match header
    case None => 0
    case Some(text) =>
      match FirstNumber(text)
      case None => 0
      case Some(n) => n
  }

  /** Text with no digit before a digit run reads as that run's value, whatever follows a non-digit. */
  lemma DurationOf(p: string, d: string, q: string)
    requires NoDigits(p)
    requires d != [] && AllDigits(d)
    requires q == [] || !IsDigit(q[0])
    ensures Duration(Some(p + d + q)) == DigitsValue(d)
  {
    FirstNumberOf(p, d, q);
  }

  // ---------------------------------------------------------------------------
  // fetch_assessment_metadata
  // ---------------------------------------------------------------------------

  /** The nine fields of a scraped assessment record. */
  datatype AssessmentMeta = AssessmentMeta(
    url: string,
    name: string,
    description: string,
    duration: int,
    adaptiveSupport: string,
    remoteSupport: string,
    testType: seq<string>,
    jobRoles: seq<string>,
    languages: seq<string>)

  /**
   * What each lookup on a fetched page finds: the `<h1>` text, the element
   * texts after the "Description", "Job levels" and "Languages" headers, the
   * "Approximate Completion Time" header text itself, the remote-testing icon
   * and the test-type images.
   */
  datatype Page = Page(
    title: Option<string>,
    description: Lookup<string>,
    jobLevels: Lookup<string>,
    languages: Lookup<string>,
    completionTime: Option<string>,
    remoteTesting: Lookup<Icon>,
    testType: Lookup<seq<Image>>)

  const UNKNOWN_TITLE := "Unknown SHL Assessment"
  const NO_DESCRIPTION := "No description"
  const ENGLISH: seq<string> := ["English"]
  const ADAPTIVE_UNKNOWN := "Unknown"

  /**
   * The description: "No description" without a header, the text of the
   * `<p>` after it, or `None` when there is no `<p>` (`.get_text` raises).
   */
  function DescriptionText(header: Lookup<string>): (r: Option<string>)
    ensures r.None? <==> header == Section(None)
    ensures header.NoSection? ==> r == Some(NO_DESCRIPTION)
    ensures header.Section? && r.Some? ==> r == header.next
  {
    match header
    case NoSection => Some(NO_DESCRIPTION)
    case Section(next) => next
  }

  /** The fixed record of the `except` branch. */
  function FailureRecord(url: string): (r: AssessmentMeta)
    ensures r.url == url && r.duration == 0 && r.testType == ["Unknown"]
    ensures r.adaptiveSupport == ADAPTIVE_UNKNOWN && r.remoteSupport == "Unknown"
  {
    AssessmentMeta(url, "Generic SHL Assessment", "General-purpose SHL test for professional roles.",
      0, ADAPTIVE_UNKNOWN, "Unknown", ["Unknown"], LlmTags.GENERAL_ROLES, ENGLISH)
  }

  /** No lookup raises: every header found has an element after it. */
  predicate Processable(page: Page) {
    page.description != Section(None) && page.jobLevels != Section(None) && page.languages != Section(None)
  }

  /**
   * `fetch_assessment_metadata(url)`. `fetched` is the parsed page, `None`
   * when the request fails or its status is an error; `classifyReply` and
   * `rolesReply` are the LLM replies used when the page yields no test type
   * or no job role.
   */
  function FetchMetadata(url: string, fetched: Option<Page>, classifyReply: string, rolesReply: string): (r: AssessmentMeta)
    ensures r.url == url
    ensures r.adaptiveSupport == ADAPTIVE_UNKNOWN
    ensures r.duration >= 0
    ensures r.testType != [] && r.jobRoles != []
    ensures r.remoteSupport == "Unknown" || r.remoteSupport == "Yes" || r.remoteSupport == "No"
    ensures fetched.None? || !Processable(fetched.value) ==> r == FailureRecord(url)
  {
    match fetched
    case None => FailureRecord(url)
    case Some(page) =>
      var title := page.title.GetOr(UNKNOWN_TITLE);
      match DescriptionText(page.description)
      case None => FailureRecord(url)
      case Some(description) =>
        match HeaderList(page.jobLevels, LlmTags.GENERAL_ROLES)
        case None => FailureRecord(url)
        case Some(roles) =>
          match HeaderList(page.languages, ENGLISH)
          case None => FailureRecord(url)
          case Some(languages) =>
            var duration := Duration(page.completionTime);
            var remote := RemoteSupport(page.remoteTesting);
            var ocr := TestTypeCodes(page.testType);
            var testType := if ocr == [] then LlmTags.ClassifyTestTypes(classifyReply) else ocr;
            var jobRoles := if roles == [] then LlmTags.PredictJobRoles(rolesReply) else roles;
            AssessmentMeta(url, title, description, duration, ADAPTIVE_UNKNOWN, remote, testType, jobRoles, languages)
  }

  /**
   * A stored test type is either a list of distinct one-letter codes or
   * ["Unknown"] (the failure record, or a classification finding no letter).
   */
  lemma TestTypeIsCodesOrUnknown(url: string, fetched: Option<Page>, classifyReply: string, rolesReply: string)
    ensures var t := FetchMetadata(url, fetched, classifyReply, rolesReply).testType;
      t == LlmTags.UNKNOWN_TYPES ||
      ((forall i :: 0 <= i < |t| ==> |t[i]| == 1 && LlmTags.IsTestTypeLetter(t[i][0]))
        && forall i, j :: 0 <= i < j < |t| ==> t[i] != t[j])
  {
  }

  /**
   * The field rules of a processable page: title, description, duration and
   * remote support come from their lookups; test type from the OCR codes
   * when there are any and from the classification reply otherwise; job
   * roles from the header list unless it is empty, else from the roles reply.
   */
  lemma FieldsOfProcessablePage(url: string, page: Page, classifyReply: string, rolesReply: string)
    requires Processable(page)
    ensures var r := FetchMetadata(url, Some(page), classifyReply, rolesReply);
      var roles := HeaderList(page.jobLevels, LlmTags.GENERAL_ROLES).value;
      var ocr := TestTypeCodes(page.testType);
      && r.name == (if page.title.Some? then page.title.value else UNKNOWN_TITLE)
      && r.description == DescriptionText(page.description).value
      && r.duration == Duration(page.completionTime)
      && r.remoteSupport == RemoteSupport(page.remoteTesting)
      && r.testType == (if ocr != [] then ocr else LlmTags.ClassifyTestTypes(classifyReply))
      && r.jobRoles == (if roles != [] then roles else LlmTags.PredictJobRoles(rolesReply))
      && r.languages == HeaderList(page.languages, ENGLISH).value
      && (page.languages.NoSection? ==> r.languages == ENGLISH)
      && (page.jobLevels.NoSection? ==> r.jobRoles == LlmTags.GENERAL_ROLES)
      && r.url == url && r.adaptiveSupport == ADAPTIVE_UNKNOWN
  {
  }

  /** The classification reply only matters when no image yields a code. */
  lemma ClassifyReplyOnlyWithoutOcr(url: string, page: Page, reply1: string, reply2: string, rolesReply: string)
    requires Processable(page) && TestTypeCodes(page.testType) != []
    ensures FetchMetadata(url, Some(page), reply1, rolesReply) == FetchMetadata(url, Some(page), reply2, rolesReply)
  {
  }

  /** A "Job levels" header whose text holds only commas and whitespace falls back to the LLM roles. */
  lemma EmptyJobLevelsUseLlm(url: string, page: Page, classifyReply: string, rolesReply: string)
    requires Processable(page) && page.jobLevels.Section?
    requires forall x :: x in StripAll(Split(page.jobLevels.next.value, {','})) ==> x == ""
    ensures FetchMetadata(url, Some(page), classifyReply, rolesReply).jobRoles == LlmTags.PredictJobRoles(rolesReply)
  {
    StrippedNonEmptyIsEmpty(Split(page.jobLevels.next.value, {','}));
    FieldsOfProcessablePage(url, page, classifyReply, rolesReply);
  }

  /** A "Languages" header with no item gives no language at all: there is no fallback for languages. */
  lemma EmptyLanguagesStayEmpty(url: string, page: Page, classifyReply: string, rolesReply: string)
    requires Processable(page) && page.languages == Section(Some(""))
    ensures FetchMetadata(url, Some(page), classifyReply, rolesReply).languages == []
  {
    assert Split("", {','}) == [""];
    assert Strip("") == "";
  }

  /** A failed request gives the same record for every page: only the url is kept. */
  lemma FailedRequestRecord(url: string, classifyReply: string, rolesReply: string)
    ensures var r := FetchMetadata(url, None, classifyReply, rolesReply);
      r.name == "Generic SHL Assessment" && r.testType == ["Unknown"] && r.duration == 0
      && r.jobRoles == ["General Roles"] && r.languages == ["English"] && r.remoteSupport == "Unknown"
  {
  }

  // ---------------------------------------------------------------------------
  // The upserted records
  // ---------------------------------------------------------------------------

  /** One vector record without its embedding: id, and the metadata `{"query": query, **meta}`. */
  datatype IndexRecord = IndexRecord(id: string, query: string, meta: AssessmentMeta)

  /** The record of CSV row `i`, whose `Query` cell is `rawQuery`; `meta` is the metadata fetched for its url. */
  function UpsertRecord(i: nat, rawQuery: string, meta: AssessmentMeta): (r: IndexRecord)
    ensures r.id != [] && AllDigits(r.id) && DigitsValue(r.id) == i
    ensures r.id[0] == '0' <==> i == 0
    ensures r.query == Strip(rawQuery) && IsStripped(r.query)
    ensures r.meta == meta
  {
    NatToStringRoundTrip(i);
    IndexRecord(NatToString(i), Strip(rawQuery), meta)
  }

  /** The records of all rows, row `i` with id `str(i)`. */
  function Records(rows: seq<(string, AssessmentMeta)>): (rs: seq<IndexRecord>)
    ensures |rs| == |rows|
    ensures forall i :: 0 <= i < |rows| ==> rs[i] == UpsertRecord(i, rows[i].0, rows[i].1)
  {
    seq(|rows|, i requires 0 <= i < |rows| => UpsertRecord(i, rows[i].0, rows[i].1))
  }

  /** No two rows share an id, so no upsert overwrites another row's vector. */
  lemma RecordIdsDistinct(rows: seq<(string, AssessmentMeta)>)
    ensures forall i, j :: 0 <= i < j < |rows| ==> Records(rows)[i].id != Records(rows)[j].id
  {
    forall i, j | 0 <= i < j < |rows|
      ensures Records(rows)[i].id != Records(rows)[j].id
    {
      if NatToString(i) == NatToString(j) {
        NatToStringInjective(i, j);
      }
    }
  }

  /**
   * The stored record as the ranking reads it back: every key present, so
   * formatting it never fails.
   */
  function Stored(r: IndexRecord): (m: Normalizer.Metadata)
    ensures m.url == Some(r.meta.url) && m.name == Some(r.meta.name)
  {
    Normalizer.Metadata(Some(r.meta.url), Some(r.meta.name), Some(r.meta.adaptiveSupport),
      Some(r.meta.description), Some(r.meta.duration), Some(r.meta.remoteSupport), Some(r.meta.testType))
  }

  /**
   * A scraped record is always shown: adaptive support as "No" (it is stored
   * as "Unknown"), remote support as scraped ("Unknown" included), the
   * duration non-negative, and the codes through the display-name table.
   */
  lemma ScrapedRecordShown(i: nat, rawQuery: string, url: string, fetched: Option<Page>, classifyReply: string, rolesReply: string)
    ensures var meta := FetchMetadata(url, fetched, classifyReply, rolesReply);
      var f := Normalizer.Format(Stored(UpsertRecord(i, rawQuery, meta)));
      && f.Ok?
      && f.value.url == url
      && f.value.adaptiveSupport == "No"
      && f.value.remoteSupport == meta.remoteSupport
      && f.value.duration >= 0
      && f.value.testType == Normalizer.MapTestTypes(meta.testType)
  {
    var meta := FetchMetadata(url, fetched, classifyReply, rolesReply);
    StoredRecordShown(i, rawQuery, meta);
  }

  /** Any upserted record whose adaptive support is "Unknown" is shown, with "No" there. */
  lemma StoredRecordShown(i: nat, rawQuery: string, meta: AssessmentMeta)
    requires meta.adaptiveSupport == ADAPTIVE_UNKNOWN
    ensures var f := Normalizer.Format(Stored(UpsertRecord(i, rawQuery, meta)));
      && f.Ok?
      && f.value.url == meta.url
      && f.value.adaptiveSupport == "No"
      && f.value.remoteSupport == meta.remoteSupport
      && f.value.duration == meta.duration
      && f.value.testType == Normalizer.MapTestTypes(meta.testType)
  {
    var m := Stored(UpsertRecord(i, rawQuery, meta));
    assert m.adaptiveSupport == Some(Normalizer.UNKNOWN);
    Normalizer.UnknownAdaptiveIsNo();
  }
}
