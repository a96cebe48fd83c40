/**
 * `TenderParser` of parse/parser.py, without an HTML library.
 *
 * A parsed document (a whole page, or one listing card) is seen only through the two
 * BeautifulSoup queries the parser makes: `select_one(selector)`, the first element a CSS
 * selector finds, and `select(selector)`, all of them in document order. Both are
 * parameters of the model, as is `urljoin`; selectors are the source's own strings, and
 * what matters about an element is the text `get_text` returns, its `href` and the links
 * inside it.
 */
module Parser {
  import opened Wrappers
  import opened Text
  import opened Decimal
  import opened Records

  type Selector = string

  /**
   * An element a selector found: `get_text(strip=True)`, `get_text(separator=' ',
   * strip=True)`, `get('href')` (None when the attribute is missing) and the elements
   * `select('a[href]')` finds inside it.
   */
  datatype Element = Element(text: string, spacedText: string, href: Option<string>, links: seq<Element>)

  datatype Soup = Soup(selectOne: Selector -> Option<Element>, select: Selector -> seq<Element>)

  // ---------------------------------------------------------------- str.split

  /** `s.split(c)`: the pieces between occurrences of `c`; there is always at least one. */
  function Split(s: string, c: char): (parts: seq<string>)
    ensures |parts| >= 1
    ensures forall i :: 0 <= i < |parts| ==> c !in parts[i]
  {
    if s == [] then [[]]
    else
      var rest := Split(s[1..], c);
      if s[0] == c then [[]] + rest
      else
        var first := [s[0]] + rest[0];
        assert forall i :: 1 <= i < |rest| ==> ([first] + rest[1..])[i] == rest[i];
        [first] + rest[1..]
  }

  /** `c.join(parts)` */
  function Join(parts: seq<string>, c: char): string
    requires |parts| >= 1
  {
    if |parts| == 1 then parts[0] else parts[0] + [c] + Join(parts[1..], c)
  }

  /** Joining the pieces with the separator gives back the text... */
  lemma {:induction false} JoinSplit(s: string, c: char)
    ensures Join(Split(s, c), c) == s
  {
    if s != [] {
      var rest := Split(s[1..], c);
      JoinSplit(s[1..], c);
      if s[0] == c {
        assert ([[]] + rest)[1..] == rest;
      } else {
        var first := [s[0]] + rest[0];
        var parts := [first] + rest[1..];
        if |rest| == 1 {
          assert rest[0] == s[1..];
          assert [s[0]] + s[1..] == s;
          assert parts == [s];
        } else {
          assert parts[1..] == rest[1..];
          assert Join(rest, c) == rest[0] + [c] + Join(rest[1..], c);
        }
      }
    }
  }

  /** ... and splitting a join of separator-free pieces gives back the pieces. */
  lemma {:induction false} SplitJoin(parts: seq<string>, c: char)
    requires |parts| >= 1 && forall i :: 0 <= i < |parts| ==> c !in parts[i]
    ensures Split(Join(parts, c), c) == parts
    decreases |parts|, |parts[0]|
  {
    var p := parts[0];
    if p == [] {
      if |parts| > 1 {
        var tail := Join(parts[1..], c);
        assert Join(parts, c) == [c] + tail;
        assert ([c] + tail)[1..] == tail;
        SplitJoin(parts[1..], c);
        assert [p] + parts[1..] == parts;
      }
    } else {
      var shorter := [p[1..]] + parts[1..];
      assert p[0] != c;
      assert forall i :: 1 <= i < |shorter| ==> shorter[i] == parts[i];
      SplitJoin(shorter, c);
      JoinCons(p, parts, shorter, c);
      assert [p[0]] + p[1..] == p;
      assert [p] + shorter[1..] == parts;
    }
  }

  lemma JoinCons(p: string, parts: seq<string>, shorter: seq<string>, c: char)
    requires |parts| >= 1 && p == parts[0] && p != []
    requires shorter == [p[1..]] + parts[1..]
    ensures Join(parts, c) == [p[0]] + Join(shorter, c)
  {
    assert shorter[1..] == parts[1..];
    assert p == [p[0]] + p[1..];
  }

  // ---------------------------------------------------------------- tender id

  /** The characters `_extract_tender_id` keeps: `c.isalnum() or c == '-'`. */
  predicate IsIdChar(c: char) { IsAlnum(c) || c == '-' }

  /** `''.join(c for c in part if c.isalnum() or c == '-')` */
  function IdChars(part: string): (r: string)
    ensures forall i :: 0 <= i < |r| ==> IsIdChar(r[i])
  {
    if part == [] then []
    else if IsIdChar(part[0]) then [part[0]] + IdChars(part[1..])
    else IdChars(part[1..])
  }

  /** The filter works character by character: a concatenation filters piece by piece. */
  lemma {:induction false} IdCharsAppend(a: string, b: string)
    ensures IdChars(a + b) == IdChars(a) + IdChars(b)
  {
    if a == [] {
      assert a + b == b;
    } else {
      assert (a + b)[1..] == a[1..] + b;
      IdCharsAppend(a[1..], b);
    }
  }

  /** One character survives exactly when it is a letter, a digit or `-`. */
  lemma IdCharsOne(c: char)
    ensures IdChars([c]) == if IsIdChar(c) then [c] else []
  {
    assert [c][1..] == [];
  }

  /** Text made of letters, digits and `-` passes the filter unchanged. */
  lemma {:induction false} IdCharsOfIdText(part: string)
    requires forall i :: 0 <= i < |part| ==> IsIdChar(part[i])
    ensures IdChars(part) == part
  {
    if part != [] {
      IdCharsOfIdText(part[1..]);
    }
  }

  /** The filter keeps every digit, so it leaves a digit-bearing segment non-empty. */
  lemma {:induction false} IdCharsKeepsDigits(part: string)
    ensures HasDigit(IdChars(part)) <==> HasDigit(part)
  {
    if part != [] {
      IdCharsKeepsDigits(part[1..]);
      var rest := IdChars(part[1..]);
      if IsIdChar(part[0]) {
        HasDigitCons(part[0], rest);
      }
      HasDigitCons(part[0], part[1..]);
      assert [part[0]] + part[1..] == part;
    }
  }

  lemma HasDigitCons(c: char, s: string)
    ensures HasDigit([c] + s) <==> IsDigit(c) || HasDigit(s)
  {
    var t := [c] + s;
    if IsDigit(c) {
      assert t[0] == c;
    }
    if HasDigit(s) {
      var i :| 0 <= i < |s| && IsDigit(s[i]);
      assert t[i + 1] == s[i];
    }
    if HasDigit(t) {
      var i :| 0 <= i < |t| && IsDigit(t[i]);
      if i > 0 {
        assert s[i - 1] == t[i];
      }
    }
  }

  /** An all-digit segment passes the filter unchanged. */
  lemma {:induction false} IdCharsOfDigits(part: string)
    requires AllDigits(part)
    ensures IdChars(part) == part
  {
    if part != [] {
      IdCharsOfDigits(part[1..]);
    }
  }

  /**
   * The loop of `_extract_tender_id` over the segments, last first: a segment that
   * `isdigit()` is returned as it is, one that merely holds a digit is returned filtered
   * (never empty, so the `if cleaned` guard always passes), and digit-free ones are
   * skipped. The last digit-bearing segment decides.
   */
  function ScanParts(parts: seq<string>): (r: Option<string>)
    ensures r.None? <==> forall i :: 0 <= i < |parts| ==> !HasDigit(parts[i])
    ensures r.Some? ==> HasDigit(r.value)
    ensures r.Some? ==> forall i :: 0 <= i < |r.value| ==> IsIdChar(r.value[i])
  {
    if parts == [] then None
    else
      var part := parts[|parts| - 1];
      var init := parts[..|parts| - 1];
      assert forall i :: 0 <= i < |init| ==> init[i] == parts[i];
      if part != [] && AllDigits(part) then
        assert IsDigit(part[0]);
        IdCharsOfDigits(part);
        Some(part)
      else if part != [] && HasDigit(part) && IdChars(part) != [] then
        IdCharsKeepsDigits(part);
        Some(IdChars(part))
      else
        IdCharsKeepsDigits(part);
        ScanParts(init)
  }

  /** The scan's answer is the filtered last digit-bearing segment. */
  lemma {:induction false} ScanPartsLastDigitSegment(parts: seq<string>, k: nat)
    requires k < |parts| && HasDigit(parts[k])
    requires forall j :: k < j < |parts| ==> !HasDigit(parts[j])
    ensures ScanParts(parts) == Some(IdChars(parts[k]))
  {
    var part := parts[|parts| - 1];
    var init := parts[..|parts| - 1];
    if k == |parts| - 1 {
      if part != [] && AllDigits(part) {
        IdCharsOfDigits(part);
      } else {
        IdCharsKeepsDigits(part);
      }
    } else {
      assert !HasDigit(part);
      assert init[k] == parts[k];
      ScanPartsLastDigitSegment(init, k);
    }
  }

  /** `_extract_tender_id(url)` */
  function ExtractTenderId(url: string): (r: Option<string>)
    ensures r.Some? ==> r.value != [] && HasDigit(r.value)
    ensures r.Some? ==> forall i :: 0 <= i < |r.value| ==> IsIdChar(r.value[i])
  {
    if url == [] then None
    else ScanParts(Split(url, '/'))
  }

  lemma HasDigitAppend(a: string, b: string)
    ensures HasDigit(a + b) <==> HasDigit(a) || HasDigit(b)
  {
    var t := a + b;
    if HasDigit(a) {
      var i :| 0 <= i < |a| && IsDigit(a[i]);
      assert t[i] == a[i];
    }
    if HasDigit(b) {
      var i :| 0 <= i < |b| && IsDigit(b[i]);
      assert t[|a| + i] == b[i];
    }
    if HasDigit(t) {
      var i :| 0 <= i < |t| && IsDigit(t[i]);
      if i < |a| { assert a[i] == t[i]; } else { assert b[i - |a|] == t[i]; }
    }
  }

  /** A text joined with a non-digit holds a digit exactly when one of its pieces does. */
  lemma {:induction false} JoinHasDigit(parts: seq<string>, c: char)
    requires |parts| >= 1 && !IsDigit(c)
    ensures HasDigit(Join(parts, c)) <==> exists i :: 0 <= i < |parts| && HasDigit(parts[i])
  {
    if |parts| > 1 {
      JoinHasDigit(parts[1..], c);
      HasDigitAppend(parts[0] + [c], Join(parts[1..], c));
      HasDigitAppend(parts[0], [c]);
      HasDigitCons(c, []);
      assert [c] + [] == [c];
      if exists i :: 0 <= i < |parts| && HasDigit(parts[i]) {
        var i :| 0 <= i < |parts| && HasDigit(parts[i]);
        if i > 0 {
          assert parts[1..][i - 1] == parts[i];
        }
      }
      if exists i :: 0 <= i < |parts[1..]| && HasDigit(parts[1..][i]) {
        var i :| 0 <= i < |parts[1..]| && HasDigit(parts[1..][i]);
        assert parts[i + 1] == parts[1..][i];
      }
    }
  }

  /** A URL yields no tender id exactly when it holds no digit at all. */
  lemma ExtractTenderIdNone(url: string)
    ensures ExtractTenderId(url).None? <==> !HasDigit(url)
  {
    if url != [] {
      JoinSplit(url, '/');
      JoinHasDigit(Split(url, '/'), '/');
    }
  }

  /**
   * The id comes from the last digit-bearing segment of the URL, filtered: a segment
   * holding a digit later in the path beats an all-digit one earlier.
   */
  lemma ExtractTenderIdLastSegment(url: string, k: nat)
    requires url != [] && k < |Split(url, '/')| && HasDigit(Split(url, '/')[k])
    requires forall j :: k < j < |Split(url, '/')| ==> !HasDigit(Split(url, '/')[j])
    ensures ExtractTenderId(url) == Some(IdChars(Split(url, '/')[k]))
  {
    ScanPartsLastDigitSegment(Split(url, '/'), k);
  }

  // ---------------------------------------------------------------- selector fallbacks

  const TitleSelectors: seq<Selector> :=
    ["h1.tender-title", ".tender-detail h1", "h1", ".page-title h1", "#tender-title"]
  const OrganizationSelectors: seq<Selector> :=
    [".organization-name", ".agency-name", ".procuring-entity", "dt:contains(\"Organization\") + dd",
     "label:contains(\"Organization\") + span", ".tender-org"]
  const TypeSelectors: seq<Selector> :=
    [".tender-type", ".category", "dt:contains(\"Type\") + dd", "dt:contains(\"Category\") + dd", ".tender-category"]
  const PublishDateSelectors: seq<Selector> :=
    [".publish-date", ".date-published", "dt:contains(\"Published\") + dd", "dt:contains(\"Posted\") + dd",
     ".tender-publish-date"]
  const ClosingDateSelectors: seq<Selector> :=
    [".closing-date", ".deadline", "dt:contains(\"Closing\") + dd", "dt:contains(\"Deadline\") + dd",
     ".tender-closing-date"]
  const DescriptionSelectors: seq<Selector> :=
    [".tender-description", ".description", "#description", "dt:contains(\"Description\") + dd",
     ".tender-detail-description", ".tender-details .content"]

  /** The loop shared by the `_extract_*` methods: the first selector that finds an element wins. */
  function FirstFound(soup: Soup, selectors: seq<Selector>): (r: Option<Element>)
    ensures r.None? <==> forall i :: 0 <= i < |selectors| ==> soup.selectOne(selectors[i]).None?
    ensures r.Some? ==> exists i :: 0 <= i < |selectors| && soup.selectOne(selectors[i]) == r
                                   && forall j :: 0 <= j < i ==> soup.selectOne(selectors[j]).None?
  {
    if selectors == [] then None
    else if soup.selectOne(selectors[0]).Some? then soup.selectOne(selectors[0])
    else
      var r := FirstFound(soup, selectors[1..]);
      assert forall i :: 1 <= i < |selectors| ==> selectors[1..][i - 1] == selectors[i];
      r
  }

  /** Whatever later selectors find, an element found by an earlier one decides. */
  lemma FirstFoundPrefix(soup: Soup, selectors: seq<Selector>, i: nat)
    requires i < |selectors| && soup.selectOne(selectors[i]).Some?
    requires forall j :: 0 <= j < i ==> soup.selectOne(selectors[j]).None?
    ensures FirstFound(soup, selectors) == soup.selectOne(selectors[i])
  {
    var r := FirstFound(soup, selectors);
    var k :| 0 <= k < |selectors| && soup.selectOne(selectors[k]) == r
             && forall j :: 0 <= j < k ==> soup.selectOne(selectors[j]).None?;
    assert k == i;
  }

  function TextOfFirst(soup: Soup, selectors: seq<Selector>): Option<string> {
    match FirstFound(soup, selectors)
    case None => None
    case Some(e) => Some(e.text)
  }

  /**
   * `_extract_type`'s mapping of the element text: a case-insensitive mention of goods,
   * works or services, in that order, gives the label; other text is kept as it is.
   */
  function TypeLabel(text: string): (r: string)
    ensures r == "Goods" || r == "Works" || r == "Services" || r == text
  {
    var low := LowerStr(text);
    if Contains(low, "goods") then "Goods"
    else if Contains(low, "works") then "Works"
    else if Contains(low, "services") then "Services"
    else text
  }

  /**
   * The keyword priority of the mapping: goods before works before services, and text
   * that mentions none of them is kept.
   */
  lemma TypeLabelPriority(text: string)
    ensures var low := LowerStr(text);
      && (TypeLabel(text) == "Goods" <==> Contains(low, "goods"))
      && (TypeLabel(text) == "Works" <==> !Contains(low, "goods") && Contains(low, "works"))
      && (TypeLabel(text) == "Services" <==>
            !Contains(low, "goods") && !Contains(low, "works") && Contains(low, "services"))
      && (!Contains(low, "goods") && !Contains(low, "works") && !Contains(low, "services") ==>
            TypeLabel(text) == text)
  {
    var low := LowerStr(text);
    if text == "Goods" {
      assert low == "goods" && OccursAt(low, "goods", 0);
    } else if text == "Works" {
      assert low == "works" && OccursAt(low, "works", 0);
    } else if text == "Services" {
      assert low == "services" && OccursAt(low, "services", 0);
    }
  }

  /** The mapping is idempotent: each label maps to itself, and kept text is kept again. */
  lemma TypeLabelIdempotent(text: string)
    ensures TypeLabel(TypeLabel(text)) == TypeLabel(text)
  {
    var r := TypeLabel(text);
    if r == "Goods" {
      assert LowerStr(r) == "goods";
      assert OccursAt(LowerStr(r), "goods", 0);
    } else if r == "Works" {
      assert LowerStr(r) == "works";
      assert OccursAt(LowerStr(r), "works", 0);
      NoGoodsIn("works");
    } else if r == "Services" {
      assert LowerStr(r) == "services";
      assert OccursAt(LowerStr(r), "services", 0);
      NoGoodsIn("services");
      NoWorksInServices();
    }
  }

  lemma NoGoodsIn(s: string)
    requires s == "works" || s == "services"
    ensures !Contains(s, "goods")
  {
    assert forall k :: 0 <= k < |s| ==> s[k] != 'g';
    forall i | 0 <= i <= |s| ensures !OccursAt(s, "goods", i) {
      if i + 5 <= |s| {
        assert s[i..i + 5][0] == s[i];
      }
    }
  }

  lemma NoWorksInServices()
    ensures !Contains("services", "works")
  {
    var s := "services";
    assert forall k :: 0 <= k < |s| ==> s[k] != 'w';
    forall i | 0 <= i <= |s| ensures !OccursAt(s, "works", i) {
      if i + 5 <= |s| {
        assert s[i..i + 5][0] == s[i];
      }
    }
  }

  // ---------------------------------------------------------------- attachments

  const AttachmentSectionsSelector: Selector := ".attachments, .documents, #attachments"
  const FallbackLinksSelector: Selector := "a[href*=\".pdf\"], a[href*=\".doc\"]"
  const DocExtensions: seq<string> := [".pdf", ".doc", ".docx", ".xls", ".xlsx"]

  /** `any(ext in href.lower() for ext in [...])` */
  predicate IsDocumentHref(href: string) {
    exists i :: 0 <= i < |DocExtensions| && Contains(LowerStr(href), DocExtensions[i])
  }

  /** A text containing `w + tail` contains `w`. */
  lemma ContainsPrefix(s: string, w: string, tail: string)
    requires Contains(s, w + tail)
    ensures Contains(s, w)
  {
    var i :| 0 <= i <= |s| && OccursAt(s, w + tail, i);
    assert (w + tail)[..|w|] == w;
    assert s[i..i + |w|] == s[i..i + |w + tail|][..|w|];
    assert OccursAt(s, w, i);
  }

  /** `.docx` and `.xlsx` add nothing: they contain `.doc` and `.xls`. */
  lemma DocumentHrefExtensions(href: string)
    ensures IsDocumentHref(href) <==>
      var low := LowerStr(href);
      Contains(low, ".pdf") || Contains(low, ".doc") || Contains(low, ".xls")
  {
    var low := LowerStr(href);
    if Contains(low, ".docx") {
      assert ".docx" == ".doc" + "x";
      ContainsPrefix(low, ".doc", "x");
    }
    if Contains(low, ".xlsx") {
      assert ".xlsx" == ".xls" + "x";
      ContainsPrefix(low, ".xls", "x");
    }
    assert DocExtensions[0] == ".pdf" && DocExtensions[1] == ".doc" && DocExtensions[3] == ".xls";
  }

  /** The links of a section whose href names a document, in link order. */
  function DocLinks(links: seq<Element>): (r: seq<Element>)
    ensures |r| <= |links|
    ensures forall i :: 0 <= i < |r| ==> IsDocumentHref(r[i].href.GetOr(""))
  {
    if links == [] then []
    else
      var last := links[|links| - 1];
      DocLinks(links[..|links| - 1]) + if IsDocumentHref(last.href.GetOr("")) then [last] else []
  }

  /** `link.get_text(strip=True) or 'Document'` */
  function LinkName(link: Element): (name: string)
    ensures name != []
    ensures link.text != [] ==> name == link.text
  {
    if link.text == [] then "Document" else link.text
  }

  // ---------------------------------------------------------------- pagination

  const CurrentPageSelector: Selector := ".pagination .active, .current-page"
  const NextLinkSelector: Selector := ".pagination a:contains(\"Next\"), a.next-page, a[rel=\"next\"]"
  const PageLinksSelector: Selector := ".pagination a[href]"

  /** The `pagination` dict of `get_pagination_info`. */
  datatype Pagination = Pagination(currentPage: int, totalPages: int, hasNext: bool, nextUrl: Option<string>)

  const DefaultPagination := Pagination(1, 1, false, None)

  /** `str.isdigit()`: non-empty and all digits. */
  predicate IsDigitText(s: string) { s != [] && AllDigits(s) }

  /** `[int(link.get_text(strip=True)) for link in page_links if ....isdigit()]` */
  function PageNumbers(links: seq<Element>): (pages: seq<nat>)
    ensures |pages| <= |links|
  {
    if links == [] then []
    else
      var last := links[|links| - 1];
      PageNumbers(links[..|links| - 1]) + (if IsDigitText(last.text) then [ValueOf(last.text)] else [])
  }

  /** Every digit-only link text is among the numbers, and every number comes from one. */
  lemma {:induction false} PageNumbersOfLinks(links: seq<Element>)
    ensures forall i :: 0 <= i < |links| && IsDigitText(links[i].text) ==> ValueOf(links[i].text) in PageNumbers(links)
    ensures forall p :: p in PageNumbers(links) ==> exists i :: 0 <= i < |links| && IsDigitText(links[i].text) && p == ValueOf(links[i].text)
    ensures PageNumbers(links) == [] <==> forall i :: 0 <= i < |links| ==> !IsDigitText(links[i].text)
  {
    if links != [] {
      var init := links[..|links| - 1];
      PageNumbersOfLinks(init);
      assert forall i :: 0 <= i < |init| ==> init[i] == links[i];
    }
  }

  /** `max(pages)` */
  function Max(xs: seq<nat>): (m: nat)
    requires xs != []
    ensures m in xs && forall i :: 0 <= i < |xs| ==> xs[i] <= m
  {
    if |xs| == 1 then xs[0]
    else
      var m := Max(xs[1..]);
      assert forall i :: 1 <= i < |xs| ==> xs[i] == xs[1..][i - 1];
      if xs[0] >= m then xs[0] else m
  }

  const ListingCardsSelector: Selector := ".tender-card, .tender-item, tr.tender-row"
  const CardTitleSelector: Selector := ".tender-title, .title, h3, td.title"
  const CardLinkSelector: Selector := "a[href*=\"tender\"], a[href*=\"detail\"]"
  const CardOrganizationSelector: Selector := ".organization, .org-name, .agency, td.organization"
  const CardDateSelector: Selector := ".publish-date, .date-published, td.date"
  const CardTypeSelector: Selector := ".tender-type, .category, td.type"

  const StubKeys: set<Field> := {TenderId, Title, SourceUrl, Organization, PublishDate, TenderType}

  /** The dict `_extract_listing_item` returns. */
  function Stub(id: string, title: string, url: string, org: Value, published: Value, kind: Value): (r: Record)
    ensures r.Keys == StubKeys
    ensures r[TenderId] == Str(id) && r[Title] == Str(title) && r[SourceUrl] == Str(url)
  {
    map[TenderId := Str(id), Title := Str(title), SourceUrl := Str(url),
        Organization := org, PublishDate := published, TenderType := kind]
  }

  const DetailKeys: set<Field> :=
    {TenderId, Title, Organization, TenderType, PublishDate, ClosingDate, Description, Attachments}

  /** The dict `parse_detail_page` builds. */
  function Detail(id: string, title: Value, org: Value, kind: Value, published: Value, closing: Value,
                  description: Value, attachments: Value): (r: Record)
    ensures r.Keys == DetailKeys
    ensures r[TenderId] == Str(id) && r[Title] == title
  {
    map[TenderId := Str(id), Title := title, Organization := org, TenderType := kind,
        PublishDate := published, ClosingDate := closing, Description := description,
        Attachments := attachments]
  }

  /** The TenderParser object: its base URL and the `urljoin` it uses. */
  datatype TenderParser = TenderParser(baseUrl: string, urljoin: (string, string) -> string)
  {
    /**
     * `_extract_listing_item(card)`: a stub needs a title element, a link element and a
     * tender id in the link's href; the other three fields are None when not found.
     */
    function ExtractListingItem(card: Soup): (r: Option<Record>)
      ensures r.None? <==>
        || card.selectOne(CardTitleSelector).None?
        || card.selectOne(CardLinkSelector).None?
        || ExtractTenderId(card.selectOne(CardLinkSelector).value.href.GetOr("")).None?
      ensures r.Some? ==> r.value.Keys == StubKeys
      ensures r.Some? ==> Truthy(r.value[TenderId]) && r.value[SourceUrl].Str?
    {
      var title := card.selectOne(CardTitleSelector);
      var link := card.selectOne(CardLinkSelector);
      var org := card.selectOne(CardOrganizationSelector);
      var date := card.selectOne(CardDateSelector);
      var kind := card.selectOne(CardTypeSelector);
      if title.None? || link.None? then None
      else
        var href := link.value.href.GetOr("");
        match ExtractTenderId(href)
        case None => None
        case Some(id) =>
          Some(Stub(id, title.value.text, urljoin(baseUrl, href), TextOrNull(org), TextOrNull(date), TextOrNull(kind)))
    }

    /**
     * The stubs `parse_listing_page` returns from the cards its selector found, in card
     * order: the cards without a stub are skipped.
     */
    function ListingItems(cards: seq<Soup>): (r: seq<Record>)
      ensures |r| <= |cards|
      ensures forall i :: 0 <= i < |r| ==> r[i].Keys == StubKeys && Truthy(r[i][TenderId]) && r[i][SourceUrl].Str?
      decreases |cards|
    {
      if cards == [] then []
      else
        var init := ListingItems(cards[..|cards| - 1]);
        match ExtractListingItem(cards[|cards| - 1])
        case Some(item) => init + [item]
        case None => init
    }

    /** The cards that yield a stub, in card order. */
    function StubCards(cards: seq<Soup>): (r: seq<Soup>)
      ensures |r| <= |cards|
      ensures forall i :: 0 <= i < |r| ==> ExtractListingItem(r[i]).Some?
      decreases |cards|
    {
      if cards == [] then []
      else
        var init := StubCards(cards[..|cards| - 1]);
        var last := cards[|cards| - 1];
        if ExtractListingItem(last).Some? then init + [last] else init
    }

    /** `parse_listing_page`, given the cards `soup.select(ListingCardsSelector)` found. */
    method ParseListingPage(cards: seq<Soup>) returns (tenders: seq<Record>)
      ensures tenders == ListingItems(cards)
    {
      tenders := [];
      for i := 0 to |cards|
        invariant tenders == ListingItems(cards[..i])
      {
        assert cards[..i + 1][..i] == cards[..i];
        var tender := ExtractListingItem(cards[i]);
        if tender.Some? {
          tenders := tenders + [tender.value];
        }
      }
      assert cards[..|cards|] == cards;
    }

    /** `elem.get_text(strip=True) if elem else None` */
    static function TextOrNull(e: Option<Element>): Value {
      if e.Some? then Str(e.value.text) else Null
    }

    /** `_extract_type(soup)` */
    static function ExtractType(soup: Soup): (r: Option<string>)
      ensures r.None? <==> forall i :: 0 <= i < |TypeSelectors| ==> soup.selectOne(TypeSelectors[i]).None?
      ensures r.Some? ==> r.value == TypeLabel(FirstFound(soup, TypeSelectors).value.text)
    {
      match FirstFound(soup, TypeSelectors)
      case None => None
      case Some(e) => Some(TypeLabel(e.text))
    }

    /** `_extract_description(soup)`: the text of the element, its pieces joined by blanks. */
    static function ExtractDescription(soup: Soup): Option<string> {
      match FirstFound(soup, DescriptionSelectors)
      case None => None
      case Some(e) => Some(e.spacedText)
    }

    /** One attachment dict built from a link: its name, and its href joined to the base url. */
    function LinkAttachment(link: Element): (e: Entry)
      ensures e.Dict? && e.name == Some(LinkName(link)) && e.name.value != []
      ensures e.url == Url(Some(urljoin(baseUrl, link.href.GetOr(""))))
    {
      Attachment(LinkName(link), urljoin(baseUrl, link.href.GetOr("")))
    }

    /** The attachments of one section: its links to documents, in order. */
    function SectionAttachments(links: seq<Element>): (r: seq<Entry>)
      ensures |r| <= |links|
    {
      if links == [] then []
      else
        var last := links[|links| - 1];
        SectionAttachments(links[..|links| - 1])
        + (if IsDocumentHref(last.href.GetOr("")) then [LinkAttachment(last)] else [])
    }

    /** The attachments of all sections, section by section. */
    function SectionsAttachments(sections: seq<Element>): seq<Entry> {
      if sections == [] then []
      else SectionsAttachments(sections[..|sections| - 1]) + SectionAttachments(sections[|sections| - 1].links)
    }

    /** The first `n` fallback links, as attachments, without a filter. */
    function FallbackAttachments(links: seq<Element>): (r: seq<Entry>)
      ensures |r| == |links|
      ensures forall i :: 0 <= i < |r| ==> r[i] == LinkAttachment(links[i])
    {
      if links == [] then [] else FallbackAttachments(links[..|links| - 1]) + [LinkAttachment(links[|links| - 1])]
    }

    /** What `_extract_attachments(soup)` returns. */
    function AttachmentsOf(soup: Soup): seq<Entry> {
      var sections := soup.select(AttachmentSectionsSelector);
      if sections != [] then SectionsAttachments(sections)
      else
        var all := soup.select(FallbackLinksSelector);
        FallbackAttachments(if |all| <= 10 then all else all[..10])
    }

    /** `_extract_attachments(soup)`: the loop over the sections, then the fallback loop. */
    method ExtractAttachments(soup: Soup) returns (attachments: seq<Entry>)
      ensures attachments == AttachmentsOf(soup)
    {
      attachments := [];
      var sections := soup.select(AttachmentSectionsSelector);
      for i := 0 to |sections|
        invariant attachments == SectionsAttachments(sections[..i])
      {
        attachments := AppendSection(attachments, sections[i].links);
        assert sections[..i + 1][..i] == sections[..i];
      }
      assert sections[..|sections|] == sections;
      if sections == [] {
        var all := soup.select(FallbackLinksSelector);
        attachments := AppendFallback(attachments, if |all| <= 10 then all else all[..10]);
      }
    }

    /** The inner `for link in links` loop: each link to a document is appended. */
    method AppendSection(acc: seq<Entry>, links: seq<Element>) returns (attachments: seq<Entry>)
      ensures attachments == acc + SectionAttachments(links)
    {
      attachments := acc;
      for j := 0 to |links|
        invariant attachments == acc + SectionAttachments(links[..j])
      {
        assert links[..j + 1][..j] == links[..j];
        var href := links[j].href.GetOr("");
        if IsDocumentHref(href) {
          attachments := attachments + [Attachment(LinkName(links[j]), urljoin(baseUrl, href))];
        }
      }
      assert links[..|links|] == links;
    }

    /** The fallback loop over the first ten links: every one is appended. */
    method AppendFallback(acc: seq<Entry>, first: seq<Element>) returns (attachments: seq<Entry>)
      ensures attachments == acc + FallbackAttachments(first)
    {
      attachments := acc;
      for k := 0 to |first|
        invariant attachments == acc + FallbackAttachments(first[..k])
      {
        assert first[..k + 1][..k] == first[..k];
        var href := first[k].href.GetOr("");
        attachments := attachments + [Attachment(LinkName(first[k]), urljoin(baseUrl, href))];
      }
      assert first[..|first|] == first;
    }

    /**
     * `get_pagination_info`: starting from the defaults, the current page is read when
     * it parses as an int, the next link counts only with a non-empty href, and the total
     * is the largest all-digit page-link text.
     */
    function PaginationOf(soup: Soup): Pagination {
      var current := soup.selectOne(CurrentPageSelector);
      var next := soup.selectOne(NextLinkSelector);
      var pages := PageNumbers(soup.select(PageLinksSelector));
      Pagination(
        if current.Some? && ParseInt(current.value.text).Some? then ParseInt(current.value.text).value else 1,
        if pages != [] then Max(pages) else 1,
        next.Some? && next.value.href.Some? && next.value.href.value != [],
        if next.Some? && next.value.href.Some? && next.value.href.value != []
        then Some(urljoin(baseUrl, next.value.href.value)) else None)
    }

    /** The method fills the dict field by field, building the page list in a loop. */
    method GetPaginationInfo(soup: Soup) returns (pagination: Pagination)
      ensures pagination == PaginationOf(soup)
    {
      pagination := DefaultPagination;
      var current := soup.selectOne(CurrentPageSelector);
      if current.Some? {
        var n := ParseInt(current.value.text);
        if n.Some? {
          pagination := pagination.(currentPage := n.value);
        }
      }
      var next := soup.selectOne(NextLinkSelector);
      if next.Some? && next.value.href.Some? && next.value.href.value != [] {
        pagination := pagination.(hasNext := true, nextUrl := Some(urljoin(baseUrl, next.value.href.value)));
      }
      var links := soup.select(PageLinksSelector);
      if links != [] {
        var pages: seq<nat> := [];
        for i := 0 to |links|
          invariant pages == PageNumbers(links[..i])
        {
          assert links[..i + 1][..i] == links[..i];
          var text := links[i].text;
          if IsDigitText(text) {
            pages := pages + [ValueOf(text)];
          }
        }
        assert links[..|links|] == links;
        if pages != [] {
          pagination := pagination.(totalPages := Max(pages));
        }
      }
    }

    /**
     * `parse_detail_page(html, tender_id)`: every field through its extractor; a page
     * without a (non-empty) title gives None.
     */
    function ParseDetailPage(soup: Soup, tenderId: string): (r: Option<Record>)
      ensures r.None? <==> TextOfFirst(soup, TitleSelectors).None? || TextOfFirst(soup, TitleSelectors).value == []
      ensures r.Some? ==> r.value.Keys == DetailKeys
      ensures r.Some? ==> r.value[TenderId] == Str(tenderId) && Truthy(r.value[Title])
    {
      var title := TextOfFirst(soup, TitleSelectors);
      var tender := Detail(
        tenderId, FromText(title), FromText(TextOfFirst(soup, OrganizationSelectors)), FromText(ExtractType(soup)),
        FromText(TextOfFirst(soup, PublishDateSelectors)), FromText(TextOfFirst(soup, ClosingDateSelectors)),
        FromText(ExtractDescription(soup)), List(AttachmentsOf(soup)));
      if title.None? || title.value == [] then None else Some(tender)
    }
  }

  /** Pagination without any of its elements is the defaults. */
  lemma PaginationDefaults(p: TenderParser, soup: Soup)
    requires soup.selectOne(CurrentPageSelector).None? && soup.selectOne(NextLinkSelector).None?
    requires soup.select(PageLinksSelector) == []
    ensures p.PaginationOf(soup) == DefaultPagination
  {
  }

  /**
   * `has_next` holds exactly when a next link with a non-empty href exists, and only then
   * is there a `next_url`; the current page is the element's text read as an int, else 1.
   */
  lemma NextLinkGate(p: TenderParser, soup: Soup)
    ensures var next := soup.selectOne(NextLinkSelector);
            p.PaginationOf(soup).hasNext <==> next.Some? && next.value.href.Some? && next.value.href.value != []
    ensures p.PaginationOf(soup).hasNext <==> p.PaginationOf(soup).nextUrl.Some?
    ensures var current := soup.selectOne(CurrentPageSelector);
            p.PaginationOf(soup).currentPage
              == if current.Some? && ParseInt(current.value.text).Some? then ParseInt(current.value.text).value else 1
  {
  }

  /**
   * The total page count is the largest all-digit page-link text, or 1 when there is
   * none: it is at least every such page number and is one of them.
   */
  lemma TotalPagesIsLargestLink(p: TenderParser, soup: Soup)
    ensures var links := soup.select(PageLinksSelector);
            var total := p.PaginationOf(soup).totalPages;
            && (forall i :: 0 <= i < |links| && IsDigitText(links[i].text) ==> ValueOf(links[i].text) <= total)
            && ((exists i :: 0 <= i < |links| && IsDigitText(links[i].text)) ==>
                  exists i :: 0 <= i < |links| && IsDigitText(links[i].text) && total == ValueOf(links[i].text))
            && ((forall i :: 0 <= i < |links| ==> !IsDigitText(links[i].text)) ==> total == 1)
  {
    var links := soup.select(PageLinksSelector);
    PageNumbersOfLinks(links);
    var pages := PageNumbers(links);
    if pages != [] {
      var m := Max(pages);
      assert m in pages;
      forall i | 0 <= i < |links| && IsDigitText(links[i].text) ensures ValueOf(links[i].text) <= m {
        var v := ValueOf(links[i].text);
        assert v in pages;
        var k :| 0 <= k < |pages| && pages[k] == v;
      }
    }
  }

  /** With no attachment section, the first ten fallback links are taken, in order. */
  lemma FallbackAtMostTen(p: TenderParser, soup: Soup)
    requires soup.select(AttachmentSectionsSelector) == []
    ensures |p.AttachmentsOf(soup)| <= 10
    ensures |p.AttachmentsOf(soup)| == if |soup.select(FallbackLinksSelector)| <= 10 then |soup.select(FallbackLinksSelector)| else 10
    ensures forall i :: 0 <= i < |p.AttachmentsOf(soup)| ==>
              p.AttachmentsOf(soup)[i] == p.LinkAttachment(soup.select(FallbackLinksSelector)[i])
  {
  }

  /** A section's attachments are its document links, in order, each made into an attachment. */
  lemma {:induction false} SectionAttachmentsOfDocLinks(p: TenderParser, links: seq<Element>)
    ensures |p.SectionAttachments(links)| == |DocLinks(links)|
    ensures forall i :: 0 <= i < |DocLinks(links)| ==>
              p.SectionAttachments(links)[i] == p.LinkAttachment(DocLinks(links)[i])
  {
    if links != [] {
      SectionAttachmentsOfDocLinks(p, links[..|links| - 1]);
    }
  }

  /** The stubs of a listing are those of the cards that yield one, in card order. */
  lemma {:induction false} ListingItemsOfStubCards(p: TenderParser, cards: seq<Soup>)
    ensures |p.ListingItems(cards)| == |p.StubCards(cards)|
    ensures forall i :: 0 <= i < |p.StubCards(cards)| ==>
              p.ListingItems(cards)[i] == p.ExtractListingItem(p.StubCards(cards)[i]).value
  {
    if cards != [] {
      ListingItemsOfStubCards(p, cards[..|cards| - 1]);
    }
  }

  /** From a section, a link becomes an attachment exactly when its href names a document. */
  lemma {:induction false} SectionKeepsDocuments(p: TenderParser, links: seq<Element>)
    ensures |p.SectionAttachments(links)| == |links| <==> forall i :: 0 <= i < |links| ==> IsDocumentHref(links[i].href.GetOr(""))
    ensures forall i :: 0 <= i < |links| && !IsDocumentHref(links[i].href.GetOr("")) ==> |p.SectionAttachments(links)| < |links|
  {
    if links != [] {
      var init := links[..|links| - 1];
      SectionKeepsDocuments(p, init);
      assert forall i :: 0 <= i < |init| ==> init[i] == links[i];
    }
  }
}
