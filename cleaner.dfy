/**
 * `DataCleaner` of clean/cleaner.py: the field normalisers, the required-field gate,
 * `clean_tender` and `deduplicate`. The cleaner keeps no state, so each operation is a
 * function; the loops of the source (over boilerplate patterns, over attachments and in
 * the deduplicator) are methods proved equal to those functions.
 */
module Cleaner {
  import opened Wrappers
  import opened Text
  import opened Dates
  import opened Records
  import opened Boilerplate

  const TenderTypes: set<string> := {"Goods", "Works", "Services"}

  /** The required fields of `_validate_required_fields`, in the order they are checked. */
  const RequiredFields: seq<Field> := [TenderId, Title, Organization, TenderType, PublishDate, Description]

  /** The keys of a record `clean_tender` builds. */
  const CleanKeys: set<Field> := {
    TenderId, Title, Organization, TenderType, PublishDate, ClosingDate, Description, SourceUrl, Attachments
  }

  // ---------------------------------------------------------------- text fields

  /** `re.sub(r'\s+', ' ', s).strip()` keeps the non-blank characters and leaves a clean text or "". */
  lemma CollapseThenStrip(s: string)
    ensures var t := Strip(Collapse(s));
      && (t == [] <==> Blank(s))
      && (t != [] ==> IsCleanText(t))
      && NonSpace(t) == NonSpace(s)
  {
    var c := Collapse(s);
    var t := Strip(c);
    CollapseIsTidy(s);
    CollapseNonSpace(s);
    StripFacts(c);
    assert NonSpace(t) == NonSpace(c) == NonSpace(s);
  }

  /** `_clean_text`: collapse whitespace runs to one blank, strip, and map "" to None. */
  function CleanText(text: Option<string>): (r: Option<string>)
    ensures r.None? <==> text.None? || Blank(text.value)
    ensures r.Some? ==> IsCleanText(r.value) && NonSpace(r.value) == NonSpace(text.value)
  {
    if text.None? || text.value == [] then None
    else
      CollapseThenStrip(text.value);
      var t := Strip(Collapse(text.value));
      if t == [] then None else Some(t)
  }

  /** Cleaning a cleaned text changes nothing. */
  lemma CleanTextIdempotent(text: Option<string>)
    ensures CleanText(CleanText(text)) == CleanText(text)
  {
    var r := CleanText(text);
    if r.Some? {
      CleanTextOfClean(r.value);
    }
  }

  /** A text already in clean shape is its own cleaning. */
  lemma CleanTextOfClean(t: string)
    requires IsCleanText(t)
    ensures CleanText(Some(t)) == Some(t)
  {
    CollapseTidy(t);
  }

  /** `_clean_tender_id`: any truthy value, as a str, stripped (it may strip to ""). */
  function CleanTenderId(v: Value): (r: Option<string>)
    ensures r.None? <==> !Truthy(v) || !v.Str?
    ensures r.Some? ==> NonSpace(r.value) == NonSpace(v.s)
    ensures r.Some? ==> NotPadded(r.value)
    ensures r.Some? && r.value == [] <==> v.Str? && v.s != [] && Blank(v.s)
    ensures r.Some? ==> Contains(v.s, r.value)
  {
    if !Truthy(v) || !v.Str? then None
    else
      StripFacts(v.s);
      StripInside(v.s);
      Some(Strip(v.s))
  }

  // ---------------------------------------------------------------- descriptions

  /**
   * `_clean_description` as a value: the patterns are removed in order, then the text
   * is cleaned like any text field (the blank-line substitution in between is dead).
   */
  function DescriptionOf(description: Option<string>): (r: Option<string>)
    ensures description.None? || description.value == [] ==> r.None?
    ensures description.Some? && description.value != [] ==>
              r == CleanText(Some(RemovePatterns(Patterns, description.value)))
    ensures r.Some? ==> IsCleanText(r.value)
  {
    if description.None? || description.value == [] then None
    else
      PatternsStartWithWords();
      var stripped := RemovePatterns(Patterns, description.value);
      BlankLineRuleIsDead(stripped);
      var t := Strip(SquashBlankLines(Collapse(stripped)));
      if t == [] then None else Some(t)
  }

  /** The loop of `_clean_description`, rebinding the text once per pattern. */
  method CleanDescription(description: Option<string>) returns (r: Option<string>)
    ensures r == DescriptionOf(description)
  {
    if description.None? || description.value == [] {
      return None;
    }
    PatternsStartWithWords();
    var text := description.value;
    var i := 0;
    while i < |Patterns|
      invariant 0 <= i <= |Patterns|
      invariant RemovePatterns(Patterns[i..], text) == RemovePatterns(Patterns, description.value)
    {
      assert Patterns[i..][1..] == Patterns[i + 1..];
      text := RemoveAll(Patterns[i], text);
      i := i + 1;
    }
    BlankLineRuleIsDead(text);
    text := Collapse(text);
    text := SquashBlankLines(text);
    text := Strip(text);
    return if text == [] then None else Some(text);
  }

  /** No boilerplate pattern occurs anywhere in `t`. */
  predicate FreeOfBoilerplate(t: string) {
    forall i :: 0 <= i < |Patterns| ==> Absent(Patterns[i], t)
  }

  /** A clean description without boilerplate is left as it is. */
  lemma DescriptionOfClean(t: string)
    requires IsCleanText(t) && FreeOfBoilerplate(t)
    ensures DescriptionOf(Some(t)) == Some(t)
  {
    PatternsStartWithWords();
    CleanTextOfClean(t);
  }

  // ---------------------------------------------------------------- tender type

  const GoodsWords: seq<string> := ["goods", "supply", "procurement"]
  const WorksWords: seq<string> := ["works", "construction", "building"]
  const ServicesWords: seq<string> := ["services", "consulting", "service"]

  predicate MentionsAny(s: string, words: seq<string>) {
    exists i :: 0 <= i < |words| && Contains(s, words[i])
  }

  /** `_clean_tender_type`: keyword containment on the lower-cased stripped text, by priority. */
  function CleanTenderType(tenderType: Option<string>): (r: Option<string>)
    ensures r.None? <==> tenderType.None? || tenderType.value == []
    ensures r.Some? ==> r.value in TenderTypes
  {
    if tenderType.None? || tenderType.value == [] then None
    else
      var t := Strip(tenderType.value);
      var low := LowerStr(t);
      if MentionsAny(low, GoodsWords) then Some("Goods")
      else if MentionsAny(low, WorksWords) then Some("Works")
      else if MentionsAny(low, ServicesWords) then Some("Services")
      else if t in TenderTypes then Some(t)
      else Some("Services")
  }

  lemma ContainsItself(s: string)
    ensures Contains(s, s)
  {
    assert OccursAt(s, s, 0);
  }

  /** Each canonical label mentions its own keyword, so the exact-label test is never reached. */
  lemma ExactLabelsMentionKeywords()
    ensures MentionsAny(LowerStr("Goods"), GoodsWords)
    ensures MentionsAny(LowerStr("Works"), WorksWords)
    ensures MentionsAny(LowerStr("Services"), ServicesWords)
  {
    assert LowerStr("Goods") == GoodsWords[0];
    ContainsItself(GoodsWords[0]);
    assert LowerStr("Works") == WorksWords[0];
    ContainsItself(WorksWords[0]);
    assert LowerStr("Services") == ServicesWords[0];
    ContainsItself(ServicesWords[0]);
  }

  /**
   * The classification by priority: a goods keyword wins over everything, a works keyword
   * over services, and whatever mentions neither is Services, keyword or not.
   */
  lemma TypePriority(text: string)
    requires text != []
    ensures var low := LowerStr(Strip(text));
      && (CleanTenderType(Some(text)) == Some("Goods") <==> MentionsAny(low, GoodsWords))
      && (CleanTenderType(Some(text)) == Some("Works") <==> !MentionsAny(low, GoodsWords) && MentionsAny(low, WorksWords))
      && (CleanTenderType(Some(text)) == Some("Services") <==> !MentionsAny(low, GoodsWords) && !MentionsAny(low, WorksWords))
  {
    TypeByPriority(text);
  }

  /** What the classifier answers, by the two keyword tests alone. */
  lemma TypeByPriority(text: string)
    requires text != []
    ensures var low := LowerStr(Strip(text));
      CleanTenderType(Some(text)) ==
        if MentionsAny(low, GoodsWords) then Some("Goods")
        else if MentionsAny(low, WorksWords) then Some("Works")
        else Some("Services")
  {
    var t := Strip(text);
    if t in TenderTypes {
      LabelMentionsKeyword(t);
    }
  }

  /** A label other than Services mentions a goods or a works keyword. */
  lemma LabelMentionsKeyword(t: string)
    requires t in TenderTypes
    ensures t == "Services" || MentionsAny(LowerStr(t), GoodsWords) || MentionsAny(LowerStr(t), WorksWords)
  {
    ExactLabelsMentionKeywords();
  }

  /** A canonical label is classified as itself. */
  lemma CleanTenderTypeOfLabel(kind: string)
    requires kind in TenderTypes
    ensures CleanTenderType(Some(kind)) == Some(kind)
  {
    assert kind == "Goods" || kind == "Works" || kind == "Services";
    GoodsIsGoods();
    WorksIsWorks();
    ServicesIsServices();
  }

  lemma LabelsAreStripped()
    ensures Strip("Goods") == "Goods" && Strip("Works") == "Works" && Strip("Services") == "Services"
  {
    assert !IsSpace("Goods"[0]) && !IsSpace("Goods"[4]);
    assert !IsSpace("Works"[0]) && !IsSpace("Works"[4]);
    assert !IsSpace("Services"[0]) && !IsSpace("Services"[7]);
  }

  lemma GoodsIsGoods()
    ensures CleanTenderType(Some("Goods")) == Some("Goods")
  {
    ExactLabelsMentionKeywords();
    LabelsAreStripped();
  }

  lemma WorksIsWorks()
    ensures CleanTenderType(Some("Works")) == Some("Works")
  {
    ExactLabelsMentionKeywords();
    WorksMentionsNoGoods();
    LabelsAreStripped();
  }

  lemma ServicesIsServices()
    ensures CleanTenderType(Some("Services")) == Some("Services")
  {
    ExactLabelsMentionKeywords();
    ServicesMentionsNoOtherGroup();
    LabelsAreStripped();
  }

  lemma WorksMentionsNoGoods()
    ensures !MentionsAny(LowerStr("Works"), GoodsWords)
  {
    var low := LowerStr("Works");
    assert low == "works";
    NotContainedByLetter(low, GoodsWords[0], 0);
    NotContainedByLength(low, GoodsWords[1]);
    NotContainedByLength(low, GoodsWords[2]);
  }

  lemma ServicesMentionsNoOtherGroup()
    ensures !MentionsAny(LowerStr("Services"), GoodsWords)
    ensures !MentionsAny(LowerStr("Services"), WorksWords)
  {
    var low := LowerStr("Services");
    assert low == "services";
    NotContainedByLetter(low, GoodsWords[0], 0);
    NotContainedByLetter(low, GoodsWords[1], 1);
    NotContainedByLength(low, GoodsWords[2]);
    NotContainedByLetter(low, WorksWords[0], 0);
    NotContainedByLength(low, WorksWords[1]);
    NotContainedByLetter(low, WorksWords[2], 0);
  }

  lemma NotContainedByLength(s: string, w: string)
    requires |s| < |w|
    ensures !Contains(s, w)
  {
  }

  /** `w` cannot occur in `s` when one of its letters does not. */
  lemma NotContainedByLetter(s: string, w: string, k: nat)
    requires k < |w| && forall i :: 0 <= i < |s| ==> s[i] != w[k]
    ensures !Contains(s, w)
  {
    forall i | 0 <= i <= |s| ensures !OccursAt(s, w, i) {
      if i + |w| <= |s| {
        assert s[i..i + |w|][k] == s[i + k];
      }
    }
  }

  // ---------------------------------------------------------------- attachments

  predicate HasUrl(e: Entry) {
    e.Dict? && e.url.Url?
  }

  /** The shape of a cleaned attachment: a clean name (at worst "Document") and a trimmed url. */
  predicate IsCleanAttachment(e: Entry) {
    && e.Dict?
    && e.name.Some? && IsCleanText(e.name.value)
    && e.url.Url? && e.url.url.Some? && NotPadded(e.url.url.value)
  }

  lemma DocumentIsClean()
    ensures IsCleanText("Document")
  {
    LettersAreClean("Document");
  }

  lemma LettersAreClean(s: string)
    requires s != [] && forall i :: 0 <= i < |s| ==> IsLetter(s[i])
    ensures IsCleanText(s)
  {
  }

  function CleanAttachment(e: Entry): (r: Entry)
    requires HasUrl(e)
    ensures IsCleanAttachment(r)
    ensures r.name == Some(CleanText(e.name).GetOr("Document"))
  {
    var name := CleanText(e.name).GetOr("Document");
    var url := e.url.url;
    DocumentIsClean();
    Attachment(name, if url.None? || url.value == [] then "" else Strip(url.value))
  }

  /**
   * The url of a cleaned attachment is the input's url trimmed: a contiguous piece of it
   * with the same non-whitespace characters, empty exactly when the input's is missing
   * or blank.
   */
  lemma CleanAttachmentUrl(e: Entry)
    requires HasUrl(e)
    ensures CleanAttachment(e).url.url.value == [] <==> e.url.url.None? || Blank(e.url.url.value)
    ensures e.url.url.Some? ==> NonSpace(CleanAttachment(e).url.url.value) == NonSpace(e.url.url.value)
    ensures e.url.url.Some? ==> Contains(e.url.url.value, CleanAttachment(e).url.url.value)
  {
    var url := e.url.url;
    if url.Some? {
      if url.value == [] {
        assert OccursAt(url.value, "", 0);
      } else {
        StripFacts(url.value);
        StripInside(url.value);
      }
    }
  }

  /** `_clean_attachments` as a value: the url-bearing dicts, cleaned, in order. */
  function KeptAttachments(items: seq<Entry>): (r: seq<Entry>)
    ensures |r| <= |items|
  {
    if items == [] then []
    else
      var rest := KeptAttachments(items[1..]);
      if HasUrl(items[0]) then [CleanAttachment(items[0])] + rest else rest
  }

  /** Every kept attachment is clean. */
  lemma {:induction false} KeptAttachmentsAreClean(items: seq<Entry>)
    ensures forall j :: 0 <= j < |KeptAttachments(items)| ==> IsCleanAttachment(KeptAttachments(items)[j])
  {
    if items != [] {
      var rest := KeptAttachments(items[1..]);
      KeptAttachmentsAreClean(items[1..]);
      if HasUrl(items[0]) {
        var r := [CleanAttachment(items[0])] + rest;
        assert KeptAttachments(items) == r;
        forall j | 0 <= j < |r| ensures IsCleanAttachment(r[j]) {
          if j > 0 {
            assert r[j] == rest[j - 1];
          }
        }
      }
    }
  }

  /** The url-bearing dicts of `items`, in order. */
  function WithUrl(items: seq<Entry>): (r: seq<Entry>)
    ensures forall j :: 0 <= j < |r| ==> HasUrl(r[j])
  {
    if items == [] then []
    else if HasUrl(items[0]) then [items[0]] + WithUrl(items[1..])
    else WithUrl(items[1..])
  }

  /** The kept attachments are the url-bearing dicts, each cleaned, in their order. */
  lemma {:induction false} KeptAttachmentsAreCleanedWithUrl(items: seq<Entry>)
    ensures |KeptAttachments(items)| == |WithUrl(items)|
    ensures forall j :: 0 <= j < |WithUrl(items)| ==>
              KeptAttachments(items)[j] == CleanAttachment(WithUrl(items)[j])
  {
    if items != [] {
      var w := WithUrl(items[1..]);
      var k := KeptAttachments(items[1..]);
      KeptAttachmentsAreCleanedWithUrl(items[1..]);
      if HasUrl(items[0]) {
        var e := items[0];
        assert WithUrl(items) == [e] + w;
        assert KeptAttachments(items) == [CleanAttachment(e)] + k;
        ConsCleaned(e, w, k);
      } else {
        assert WithUrl(items) == w;
        assert KeptAttachments(items) == k;
      }
    }
  }

  lemma ConsCleaned(e: Entry, w: seq<Entry>, k: seq<Entry>)
    requires HasUrl(e) && |k| == |w| && forall j :: 0 <= j < |w| ==> HasUrl(w[j])
    requires forall j :: 0 <= j < |w| ==> k[j] == CleanAttachment(w[j])
    ensures forall j :: 0 <= j < |w| + 1 ==> ([CleanAttachment(e)] + k)[j] == CleanAttachment(([e] + w)[j])
  {
  }

  /** A dict without a `url` key is exactly what `WithUrl` leaves out. */
  lemma {:induction false} WithUrlKeepsAll(items: seq<Entry>)
    ensures |WithUrl(items)| <= |items|
    ensures |WithUrl(items)| == |items| <==> forall i :: 0 <= i < |items| ==> HasUrl(items[i])
  {
    if items != [] {
      WithUrlKeepsAll(items[1..]);
      if forall i :: 1 <= i < |items| ==> HasUrl(items[i]) {
        assert forall i :: 0 <= i < |items| - 1 ==> HasUrl(items[1..][i]);
      } else {
        var i :| 1 <= i < |items| && !HasUrl(items[i]);
        assert !HasUrl(items[1..][i - 1]);
      }
    }
  }

  /** Nothing is dropped exactly when every entry is a dict with a `url` key. */
  lemma KeptAttachmentsKeepAll(items: seq<Entry>)
    ensures |KeptAttachments(items)| == |items| <==> forall i :: 0 <= i < |items| ==> HasUrl(items[i])
  {
    KeptAttachmentsAreCleanedWithUrl(items);
    WithUrlKeepsAll(items);
  }

  /** Anything but a list cleans to []. */
  function AttachmentsOf(v: Value): (r: seq<Entry>)
    ensures !v.List? ==> r == []
    ensures v.List? ==> r == KeptAttachments(v.items)
  {
    if v.List? then KeptAttachments(v.items) else []
  }

  /** The loop of `_clean_attachments`, appending to `cleaned`. */
  method CleanAttachments(attachments: Value) returns (cleaned: seq<Entry>)
    ensures cleaned == AttachmentsOf(attachments)
  {
    if !attachments.List? {
      return [];
    }
    var items := attachments.items;
    cleaned := [];
    var i := 0;
    while i < |items|
      invariant 0 <= i <= |items|
      invariant cleaned + KeptAttachments(items[i..]) == KeptAttachments(items)
    {
      assert items[i..][1..] == items[i + 1..];
      if HasUrl(items[i]) {
        cleaned := cleaned + [CleanAttachment(items[i])];
      }
      i := i + 1;
    }
    assert items[i..] == [];
  }

  lemma CleanAttachmentOfClean(e: Entry)
    requires IsCleanAttachment(e)
    ensures HasUrl(e) && CleanAttachment(e) == e
  {
    var name := e.name.value;
    var url := e.url.url.value;
    CleanTextOfClean(name);
    assert CleanText(e.name).GetOr("Document") == name;
    assert (if url == [] then "" else Strip(url)) == url;
    assert e == Attachment(name, url);
  }

  /** A clean attachment in front of a list is kept as it is. */
  lemma KeptAttachmentsCons(e: Entry, rest: seq<Entry>)
    requires IsCleanAttachment(e)
    ensures KeptAttachments([e] + rest) == [e] + KeptAttachments(rest)
  {
    CleanAttachmentOfClean(e);
    assert ([e] + rest)[1..] == rest;
  }

  /** Cleaning a cleaned attachment list changes nothing. */
  lemma {:induction false} KeptAttachmentsOfClean(items: seq<Entry>)
    requires forall j :: 0 <= j < |items| ==> IsCleanAttachment(items[j])
    ensures KeptAttachments(items) == items
  {
    if items != [] {
      var rest := items[1..];
      KeptAttachmentsOfClean(rest);
      assert [items[0]] + rest == items;
      KeptAttachmentsCons(items[0], rest);
    }
  }

  // ---------------------------------------------------------------- validation

  /** The first required field that is falsy in `d`, as the loop reports it. */
  function FirstMissing(d: Record, fields: seq<Field>): (r: Option<Field>)
    ensures r.None? <==> forall i :: 0 <= i < |fields| ==> Truthy(Get(d, fields[i]))
    ensures r.Some? ==> exists i :: 0 <= i < |fields| && fields[i] == r.value && !Truthy(Get(d, r.value))
                                    && forall j :: 0 <= j < i ==> Truthy(Get(d, fields[j]))
  {
    if fields == [] then None
    else if !Truthy(Get(d, fields[0])) then Some(fields[0])
    else
      var r := FirstMissing(d, fields[1..]);
      assert forall i :: 1 <= i < |fields| ==> fields[i] == fields[1..][i - 1];
      r
  }

  /** `_validate_required_fields`: the six required fields are truthy and the type is one of the three labels. */
  function ValidateRequiredFields(d: Record): (ok: bool)
    ensures ok <==>
      && Truthy(Get(d, TenderId)) && Truthy(Get(d, Title)) && Truthy(Get(d, Organization))
      && Truthy(Get(d, TenderType)) && Truthy(Get(d, PublishDate)) && Truthy(Get(d, Description))
      && Get(d, TenderType).Str? && Get(d, TenderType).s in TenderTypes
  {
    var missing := FirstMissing(d, RequiredFields);
    if missing.Some? then
      assert !Truthy(Get(d, missing.value)) && missing.value in RequiredFields;
      false
    else
      assert Truthy(Get(d, RequiredFields[0])) && Truthy(Get(d, RequiredFields[1])) && Truthy(Get(d, RequiredFields[2]));
      assert Truthy(Get(d, RequiredFields[3])) && Truthy(Get(d, RequiredFields[4])) && Truthy(Get(d, RequiredFields[5]));
      d[TenderType].Str? && d[TenderType].s in TenderTypes
  }

  // ---------------------------------------------------------------- clean_tender

  /** The dict literal of `clean_tender`: exactly the nine keys, with these values. */
  function Assemble(id: Value, title: Value, org: Value, kind: Value, published: Value,
                    closing: Value, desc: Value, url: Value, docs: Value): (c: Record)
    ensures c.Keys == CleanKeys
    ensures c[TenderId] == id && c[Title] == title && c[Organization] == org && c[TenderType] == kind
    ensures c[PublishDate] == published && c[ClosingDate] == closing && c[Description] == desc
    ensures c[SourceUrl] == url && c[Attachments] == docs
  {
    map[
      TenderId := id, Title := title, Organization := org, TenderType := kind,
      PublishDate := published, ClosingDate := closing, Description := desc,
      SourceUrl := url, Attachments := docs
    ]
  }

  function IdValue(v: Value): Value { FromText(CleanTenderId(v)) }
  function TextValue(v: Value): Value { FromText(CleanText(TextOf(v))) }
  function TypeValue(v: Value): Value { FromText(CleanTenderType(TextOf(v))) }
  function DateValue(v: Value): Value { FromText(NormalizeDate(TextOf(v))) }
  function DescriptionValue(v: Value): Value { FromText(DescriptionOf(TextOf(v))) }
  function AttachmentsValue(v: Value): Value { List(AttachmentsOf(v)) }

  /** The record `clean_tender` builds before it validates it. */
  function Normalized(t: Record): Record {
    Assemble(
      IdValue(Get(t, TenderId)), TextValue(Get(t, Title)), TextValue(Get(t, Organization)),
      TypeValue(Get(t, TenderType)), DateValue(Get(t, PublishDate)), DateValue(Get(t, ClosingDate)),
      DescriptionValue(Get(t, Description)), Get(t, SourceUrl), AttachmentsValue(Get(t, Attachments)))
  }

  lemma AttachmentsValueShape(v: Value)
    ensures CleanAttachmentList(AttachmentsValue(v))
  {
    if v.List? {
      KeptAttachmentsAreClean(v.items);
    } else {
      assert AttachmentsOf(v) == [];
    }
  }

  predicate CleanAttachmentList(v: Value) {
    v.List? && forall j :: 0 <= j < |v.items| ==> IsCleanAttachment(v.items[j])
  }

  /** The shape every record that passes `clean_tender` has. */
  predicate IsCanonical(c: Record) {
    && c.Keys == CleanKeys
    && c[TenderId].Str? && c[TenderId].s != [] && NotPadded(c[TenderId].s)
    && c[Title].Str? && IsCleanText(c[Title].s)
    && c[Organization].Str? && IsCleanText(c[Organization].s)
    && c[TenderType].Str? && c[TenderType].s in TenderTypes
    && c[PublishDate].Str? && IsIsoDate(c[PublishDate].s)
    && (c[ClosingDate].Null? || (c[ClosingDate].Str? && IsIsoDate(c[ClosingDate].s)))
    && c[Description].Str? && IsCleanText(c[Description].s)
    && CleanAttachmentList(c[Attachments])
  }

  lemma IdValueShape(v: Value)
    ensures Truthy(IdValue(v)) <==> CleanTenderId(v).Some? && CleanTenderId(v).value != []
    ensures Truthy(IdValue(v)) ==> IdValue(v).Str? && NotPadded(IdValue(v).s)
  {
  }

  lemma TextValueShape(v: Value)
    ensures Truthy(TextValue(v)) <==> CleanText(TextOf(v)).Some?
    ensures Truthy(TextValue(v)) ==> TextValue(v).Str? && IsCleanText(TextValue(v).s)
  {
  }

  lemma TypeValueShape(v: Value)
    ensures Truthy(TypeValue(v)) <==> CleanTenderType(TextOf(v)).Some?
    ensures Truthy(TypeValue(v)) ==> TypeValue(v).Str? && TypeValue(v).s in TenderTypes
  {
  }

  lemma DateValueShape(v: Value)
    ensures Truthy(DateValue(v)) <==> NormalizeDate(TextOf(v)).Some?
    ensures DateValue(v).Null? || (DateValue(v).Str? && IsIsoDate(DateValue(v).s))
  {
  }

  lemma DescriptionValueShape(v: Value)
    ensures Truthy(DescriptionValue(v)) <==> DescriptionOf(TextOf(v)).Some?
    ensures Truthy(DescriptionValue(v)) ==> DescriptionValue(v).Str? && IsCleanText(DescriptionValue(v).s)
  {
  }

  /** `clean_tender`: the normalised record if it passes validation; it is then canonical. */
  function CleanTender(t: Record): (r: Option<Record>)
    ensures r.Some? ==> IsCanonical(r.value) && r.value[SourceUrl] == Get(t, SourceUrl)
  {
    var c := Normalized(t);
    if ValidateRequiredFields(c) then
      NormalizedIsCanonical(t);
      Some(c)
    else None
  }

  /** A normalised record that passes validation is canonical. */
  lemma NormalizedIsCanonical(t: Record)
    requires ValidateRequiredFields(Normalized(t))
    ensures IsCanonical(Normalized(t))
  {
    IdValueShape(Get(t, TenderId));
    TextValueShape(Get(t, Title));
    TextValueShape(Get(t, Organization));
    TypeValueShape(Get(t, TenderType));
    DateValueShape(Get(t, PublishDate));
    DateValueShape(Get(t, ClosingDate));
    DescriptionValueShape(Get(t, Description));
    AttachmentsValueShape(Get(t, Attachments));
  }

  /**
   * `clean_tender` returns None exactly when one of the six required fields normalises
   * to nothing; the tender-type check never fails, since the classifier only yields the
   * three labels.
   */
  lemma CleanTenderAccepts(t: Record)
    ensures CleanTender(t).Some? <==>
      && CleanTenderId(Get(t, TenderId)).Some? && CleanTenderId(Get(t, TenderId)).value != []
      && CleanText(TextOf(Get(t, Title))).Some?
      && CleanText(TextOf(Get(t, Organization))).Some?
      && CleanTenderType(TextOf(Get(t, TenderType))).Some?
      && NormalizeDate(TextOf(Get(t, PublishDate))).Some?
      && DescriptionOf(TextOf(Get(t, Description))).Some?
  {
    IdValueShape(Get(t, TenderId));
    TextValueShape(Get(t, Title));
    TextValueShape(Get(t, Organization));
    TypeValueShape(Get(t, TenderType));
    DateValueShape(Get(t, PublishDate));
    DescriptionValueShape(Get(t, Description));
  }

  lemma IdValueFixed(v: Value)
    requires v.Str? && v.s != [] && NotPadded(v.s)
    ensures IdValue(v) == v
  {
    assert Strip(v.s) == v.s;
  }

  lemma TextValueFixed(v: Value)
    requires v.Str? && IsCleanText(v.s)
    ensures TextValue(v) == v
  {
    CleanTextOfClean(v.s);
  }

  lemma TypeValueFixed(v: Value)
    requires v.Str? && v.s in TenderTypes
    ensures TypeValue(v) == v
  {
    CleanTenderTypeOfLabel(v.s);
  }

  lemma DateValueFixed(v: Value)
    requires v.Null? || (v.Str? && IsIsoDate(v.s))
    ensures DateValue(v) == v
  {
    if v.Str? {
      IsoDateIsFixed(v.s);
    }
  }

  lemma DescriptionValueFixed(v: Value)
    requires v.Str? && IsCleanText(v.s) && FreeOfBoilerplate(v.s)
    ensures DescriptionValue(v) == v
  {
    DescriptionOfClean(v.s);
  }

  lemma AttachmentsValueFixed(v: Value)
    requires CleanAttachmentList(v)
    ensures AttachmentsValue(v) == v
  {
    KeptAttachmentsOfClean(v.items);
  }

  /** A canonical record whose description holds no boilerplate is its own normalisation. */
  lemma NormalizedOfCanonical(c: Record)
    requires IsCanonical(c) && FreeOfBoilerplate(c[Description].s)
    ensures Normalized(c) == c
  {
    IdValueFixed(c[TenderId]);
    TextValueFixed(c[Title]);
    TextValueFixed(c[Organization]);
    TypeValueFixed(c[TenderType]);
    DateValueFixed(c[PublishDate]);
    DateValueFixed(c[ClosingDate]);
    DescriptionValueFixed(c[Description]);
    AttachmentsValueFixed(c[Attachments]);
    AssembleOf(c);
  }

  /** A record with the nine keys is the dict literal of its own values. */
  lemma AssembleOf(c: Record)
    requires c.Keys == CleanKeys
    ensures Assemble(c[TenderId], c[Title], c[Organization], c[TenderType], c[PublishDate],
                     c[ClosingDate], c[Description], c[SourceUrl], c[Attachments]) == c
  {
  }

  /** Cleaning an already canonical record whose description holds no boilerplate gives it back unchanged. */
  lemma CleanTenderIdempotent(c: Record)
    requires IsCanonical(c) && FreeOfBoilerplate(c[Description].s)
    ensures CleanTender(c) == Some(c)
  {
    NormalizedOfCanonical(c);
  }

  /** Every record that comes out of `clean_tender` is canonical, hence cleaned again to itself when free of boilerplate. */
  lemma CleanTenderTwice(t: Record)
    requires CleanTender(t).Some? && FreeOfBoilerplate(CleanTender(t).value[Description].s)
    ensures CleanTender(CleanTender(t).value) == CleanTender(t)
  {
    CleanTenderIdempotent(CleanTender(t).value);
  }

  // ---------------------------------------------------------------- deduplicate

  function IdOf(d: Record): Value {
    Get(d, TenderId)
  }

  /** What the loop of `deduplicate` keeps from `ts`, given the ids already seen. */
  function Unique(ts: seq<Record>, seen: set<Value>): seq<Record>
  {
    if ts == [] then []
    else if Truthy(IdOf(ts[0])) && IdOf(ts[0]) !in seen then [ts[0]] + Unique(ts[1..], seen + {IdOf(ts[0])})
    else Unique(ts[1..], seen)
  }

  /** `deduplicate`: one pass with a set of the ids seen so far. */
  method Deduplicate(tenders: seq<Record>) returns (unique: seq<Record>)
    ensures unique == Unique(tenders, {})
  {
    var seen: set<Value> := {};
    unique := [];
    var i := 0;
    while i < |tenders|
      invariant 0 <= i <= |tenders|
      invariant unique + Unique(tenders[i..], seen) == Unique(tenders, {})
    {
      assert tenders[i..][1..] == tenders[i + 1..];
      var id := IdOf(tenders[i]);
      if Truthy(id) && id !in seen {
        seen := seen + {id};
        unique := unique + [tenders[i]];
      }
      i := i + 1;
    }
    assert tenders[i..] == [];
  }

  predicate IsSubsequence(a: seq<Record>, b: seq<Record>)
    decreases |b|
  {
    a == [] || (b != [] && ((a[0] == b[0] && IsSubsequence(a[1..], b[1..])) || IsSubsequence(a, b[1..])))
  }

  /** The first record in `ts` with a truthy id that is not in `seen`. */
  predicate FirstOccurrence(ts: seq<Record>, k: int, seen: set<Value>) {
    && 0 <= k < |ts| && Truthy(IdOf(ts[k])) && IdOf(ts[k]) !in seen
    && forall j :: 0 <= j < k ==> IdOf(ts[j]) != IdOf(ts[k])
  }

  lemma {:induction false} UniqueProperties(ts: seq<Record>, seen: set<Value>)
    ensures var u := Unique(ts, seen);
      && IsSubsequence(u, ts)
      && (forall i :: 0 <= i < |u| ==> Truthy(IdOf(u[i])) && IdOf(u[i]) !in seen)
      && (forall i, j :: 0 <= i < j < |u| ==> IdOf(u[i]) != IdOf(u[j]))
      && (forall k :: FirstOccurrence(ts, k, seen) ==> ts[k] in u)
    decreases |ts|
  {
    if ts != [] {
      var id := IdOf(ts[0]);
      if Truthy(id) && id !in seen {
        var seen' := seen + {id};
        UniqueProperties(ts[1..], seen');
        var u := Unique(ts, seen);
        assert u[1..] == Unique(ts[1..], seen');
        forall k | FirstOccurrence(ts, k, seen) ensures ts[k] in u {
          if k > 0 {
            assert IdOf(ts[k]) != id;
            assert FirstOccurrence(ts[1..], k - 1, seen') by {
              forall j | 0 <= j < k - 1 ensures IdOf(ts[1..][j]) != IdOf(ts[1..][k - 1]) {
                assert ts[1..][j] == ts[j + 1];
              }
            }
          }
        }
      } else {
        UniqueProperties(ts[1..], seen);
        var u := Unique(ts, seen);
        forall k | FirstOccurrence(ts, k, seen) ensures ts[k] in u {
          assert k > 0;
          assert FirstOccurrence(ts[1..], k - 1, seen) by {
            forall j | 0 <= j < k - 1 ensures IdOf(ts[1..][j]) != IdOf(ts[1..][k - 1]) {
              assert ts[1..][j] == ts[j + 1];
            }
          }
        }
      }
    }
  }

  /**
   * `deduplicate` keeps a subsequence of its input with truthy, pairwise distinct ids,
   * and it keeps the first record of every truthy id.
   */
  lemma DeduplicateSpec(ts: seq<Record>)
    ensures var u := Unique(ts, {});
      && IsSubsequence(u, ts)
      && (forall i :: 0 <= i < |u| ==> Truthy(IdOf(u[i])))
      && (forall i, j :: 0 <= i < j < |u| ==> IdOf(u[i]) != IdOf(u[j]))
      && (forall k :: 0 <= k < |ts| && Truthy(IdOf(ts[k])) && (forall j :: 0 <= j < k ==> IdOf(ts[j]) != IdOf(ts[k])) ==> ts[k] in u)
  {
    UniqueProperties(ts, {});
    var u := Unique(ts, {});
    forall k | 0 <= k < |ts| && Truthy(IdOf(ts[k])) && (forall j :: 0 <= j < k ==> IdOf(ts[j]) != IdOf(ts[k]))
      ensures ts[k] in u
    {
      assert FirstOccurrence(ts, k, {});
    }
  }
}
