/**
 * The `KnowledgeBase` document schema: which request fields a document is
 * built from, the constraints Mongoose checks before saving it (required,
 * trimmed, maximum length, enumerations) and the defaults it fills in.
 */
module KnowledgeBaseModel {
  import opened Common
  import opened JsText

  const TitleMaxLength: nat := 100
  const DescriptionMaxLength: nat := 1000
  const DefaultThumbnail: string := "/uploads/knowledge-base/default.jpg"

  const Categories: set<string> :=
    {"Crop Management", "Smart Irrigation", "Mobile Learning", "Market Access", "Community"}
  const ContentTypes: set<string> := {"guide", "video", "article", "community"}
  const Levels: set<string> := {"Beginner", "Intermediate", "Advanced", "All"}

  /**
   * The fields of a request body the schema looks at; `None` is a field the
   * body does not have.  The field `type` of the schema is `contentType` here.
   */
  datatype KbInput = KbInput(
    title: Option<string>,
    description: Option<string>,
    content: Option<string>,
    category: Option<string>,
    contentType: Option<string>,
    level: Option<string>,
    duration: Option<string>,
    isOffline: Option<bool>,
    thumbnail: Option<string>,
    tags: Option<seq<string>>,
    createdBy: Option<Id>)

  /** A stored knowledge-base item. */
  datatype KbItem = KbItem(
    title: string,
    description: string,
    content: string,
    category: string,
    contentType: string,
    level: string,
    duration: string,
    isOffline: bool,
    thumbnail: string,
    tags: seq<string>,
    createdBy: Id)

  /** The schema paths that can fail validation. */
  datatype KbField =
    | TitleField | DescriptionField | ContentField | CategoryField
    | TypeField | LevelField | DurationField | CreatedByField

  /** What every stored item satisfies. */
  predicate WellFormed(item: KbItem) {
    && item.title != [] && IsTrimmed(item.title) && Utf16Length(item.title) <= TitleMaxLength
    && item.description != [] && Utf16Length(item.description) <= DescriptionMaxLength
    && item.content != []
    && item.category in Categories
    && item.contentType in ContentTypes
    && item.level in Levels
    && item.duration != []
    && (forall i :: 0 <= i < |item.tags| ==> IsTrimmed(item.tags[i]))
    && item.createdBy != []
  }

  /** A `required` string path accepts a present, non-empty value. */
  predicate Given(v: Option<string>) {
    v.Some? && v.value != []
  }

  /** Apply the path's `trim` setter, when the value is there. */
  function Trimmed(v: Option<string>): (r: Option<string>)
    ensures r.Some? <==> v.Some?
    ensures r.Some? ==> IsTrimmed(r.value)
  {
    match v
    case Some(s) => Some(Trim(s))
    case None => None
  }

  function TrimAll(tags: seq<string>): (r: seq<string>)
    ensures |r| == |tags|
    ensures forall i :: 0 <= i < |r| ==> r[i] == Trim(tags[i]) && IsTrimmed(r[i])
  {
    seq(|tags|, i requires 0 <= i < |tags| => Trim(tags[i]))
  }

  /** Whether the value given for `f` (after the setters) passes that path's validators. */
  predicate Accepts(i: KbInput, f: KbField) {
    match f
    case TitleField =>
      var t := Trimmed(i.title);
      Given(t) && Utf16Length(t.value) <= TitleMaxLength
    case DescriptionField =>
      Given(i.description) && Utf16Length(i.description.value) <= DescriptionMaxLength
    case ContentField => Given(i.content)
    case CategoryField => Given(i.category) && i.category.value in Categories
    case TypeField => Given(i.contentType) && i.contentType.value in ContentTypes
    case LevelField => Given(i.level) && i.level.value in Levels
    case DurationField => Given(i.duration)
    case CreatedByField => Given(i.createdBy)
  }

  /** Every path the validation reports, as Mongoose collects them all in one `ValidationError`. */
  function Rejected(i: KbInput): (e: set<KbField>)
    ensures forall f :: f in e <==> !Accepts(i, f)
  {
    set f: KbField | f in {TitleField, DescriptionField, ContentField, CategoryField,
                           TypeField, LevelField, DurationField, CreatedByField} && !Accepts(i, f)
  }

  /**
   * Casting and validating a body into a document: `Failure` with every
   * failing path, or the document with setters applied and defaults filled
   * in (`isOffline` false, the default thumbnail, no tags).
   */
  function ValidateKnowledgeBase(i: KbInput): (r: Result<KbItem, set<KbField>>)
    ensures r.Failure? ==> r.error != {} && forall f :: f in r.error <==> !Accepts(i, f)
    ensures r.Success? <==> forall f :: Accepts(i, f)
    ensures r.Success? ==> WellFormed(r.value)
    ensures r.Success? ==>
      && i.title.Some? && i.description.Some? && i.content.Some? && i.category.Some?
      && i.contentType.Some? && i.level.Some? && i.duration.Some? && i.createdBy.Some?
      && r.value.title == Trim(i.title.value)
      && r.value.description == i.description.value
      && r.value.content == i.content.value
      && r.value.category == i.category.value
      && r.value.contentType == i.contentType.value
      && r.value.level == i.level.value
      && r.value.duration == i.duration.value
      && r.value.isOffline == i.isOffline.GetOr(false)
      && r.value.thumbnail == i.thumbnail.GetOr(DefaultThumbnail)
      && r.value.tags == TrimAll(i.tags.GetOr([]))
      && r.value.createdBy == i.createdBy.value
  {
    var e := Rejected(i);
    if e != {} then Failure(e)
    else
      assert Accepts(i, TitleField) && Accepts(i, DescriptionField) && Accepts(i, ContentField);
      assert Accepts(i, CategoryField) && Accepts(i, TypeField) && Accepts(i, LevelField);
      assert Accepts(i, DurationField) && Accepts(i, CreatedByField);
      Success(KbItem(
        Trim(i.title.value), i.description.value, i.content.value, i.category.value,
        i.contentType.value, i.level.value, i.duration.value, i.isOffline.GetOr(false),
        i.thumbnail.GetOr(DefaultThumbnail), TrimAll(i.tags.GetOr([])), i.createdBy.value))
  }

  /** A stored item, read back as a body with every field present. */
  function ToInput(item: KbItem): KbInput {
    KbInput(Some(item.title), Some(item.description), Some(item.content), Some(item.category),
      Some(item.contentType), Some(item.level), Some(item.duration), Some(item.isOffline),
      Some(item.thumbnail), Some(item.tags), Some(item.createdBy))
  }

  /** Validation accepts every well-formed item unchanged: the setters and defaults have nothing left to do. */
  lemma ValidateRoundTrip(item: KbItem)
    requires WellFormed(item)
    ensures ValidateKnowledgeBase(ToInput(item)) == Success(item)
  {
    var i := ToInput(item);
    TrimOfTrimmed(item.title);
    assert Accepts(i, TitleField);
    forall f ensures Accepts(i, f) {
    }
    var r := ValidateKnowledgeBase(i);
    assert r.value.tags == item.tags by {
      forall k | 0 <= k < |item.tags| ensures r.value.tags[k] == item.tags[k] {
        TrimOfTrimmed(item.tags[k]);
      }
    }
  }

  /** Validating what validation produced changes nothing. */
  lemma ValidateIdempotent(i: KbInput)
    requires ValidateKnowledgeBase(i).Success?
    ensures ValidateKnowledgeBase(ToInput(ValidateKnowledgeBase(i).value)) == ValidateKnowledgeBase(i)
  {
    ValidateRoundTrip(ValidateKnowledgeBase(i).value);
  }

  /** Surrounding white space does not count towards the title's 100 characters. */
  lemma TitleLengthAfterTrim(ws: string, t: string, i: KbInput)
    requires forall k :: 0 <= k < |ws| ==> IsWhitespace(ws[k])
    requires t != [] && IsTrimmed(t) && Utf16Length(t) <= TitleMaxLength
    requires i.title == Some(ws + t)
    ensures Accepts(i, TitleField) && Trimmed(i.title) == Some(t)
  {
    TrimStartSkips(ws, t);
    TrimOfTrimmed(t);
    assert Trim(ws + t) == TrimEnd(TrimStart(ws + t));
  }

  /** A body with no fields: what an update that sends nothing carries. */
  const NoChange: KbInput := KbInput(None, None, None, None, None, None, None, None, None, None, None)

  function Over<T>(update: Option<T>, current: T): T {
    update.GetOr(current)
  }

  /**
   * The document an update produces before validation: every field the body
   * has replaces the stored one, every other field keeps its value.
   */
  function Merge(item: KbItem, body: KbInput): (r: KbInput)
    ensures r.createdBy == Some(body.createdBy.GetOr(item.createdBy))
  {
    KbInput(
      Some(Over(body.title, item.title)), Some(Over(body.description, item.description)),
      Some(Over(body.content, item.content)), Some(Over(body.category, item.category)),
      Some(Over(body.contentType, item.contentType)), Some(Over(body.level, item.level)),
      Some(Over(body.duration, item.duration)), Some(Over(body.isOffline, item.isOffline)),
      Some(Over(body.thumbnail, item.thumbnail)), Some(Over(body.tags, item.tags)),
      Some(Over(body.createdBy, item.createdBy)))
  }

  /** An update that sends no field gives back the stored item. */
  lemma MergeNothing(item: KbItem)
    requires WellFormed(item)
    ensures ValidateKnowledgeBase(Merge(item, NoChange)) == Success(item)
  {
    assert Merge(item, NoChange) == ToInput(item);
    ValidateRoundTrip(item);
  }

  /** A successful update keeps every field the body does not mention. */
  lemma MergeKeepsUnmentioned(item: KbItem, body: KbInput)
    requires WellFormed(item)
    requires ValidateKnowledgeBase(Merge(item, body)).Success?
    ensures var v := ValidateKnowledgeBase(Merge(item, body)).value;
      && (body.title.None? ==> v.title == item.title)
      && (body.description.None? ==> v.description == item.description)
      && (body.content.None? ==> v.content == item.content)
      && (body.category.None? ==> v.category == item.category)
      && (body.contentType.None? ==> v.contentType == item.contentType)
      && (body.level.None? ==> v.level == item.level)
      && (body.duration.None? ==> v.duration == item.duration)
      && (body.isOffline.None? ==> v.isOffline == item.isOffline)
      && (body.thumbnail.None? ==> v.thumbnail == item.thumbnail)
      && (body.tags.None? ==> v.tags == item.tags)
      && (body.createdBy.None? ==> v.createdBy == item.createdBy)
  {
    var v := ValidateKnowledgeBase(Merge(item, body)).value;
    TrimOfTrimmed(item.title);
    if body.tags.None? {
      assert v.tags == item.tags by {
        forall k | 0 <= k < |item.tags| ensures v.tags[k] == item.tags[k] {
          TrimOfTrimmed(item.tags[k]);
        }
      }
    }
  }
}
