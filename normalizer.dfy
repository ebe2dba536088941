/**
 * The normaliser of src/Sync.php: `normalize_api_entity` and
 * `handle_phone_numbers` turn one decoded API object into the structure
 * `{post_title, meta}` that the create and update phases write.
 */
module Normalizer {
  import opened Wrappers
  import opened Entities

  /** `field_address_postal` of the API object; every part may be absent. */
  datatype PostalAddress = PostalAddress(
    addressLine1: Option<string>,
    postalCode: Option<string>,
    locality: Option<string>)

  /** One element of `field_additinal_phones` (the upstream field name is misspelled). */
  datatype AdditionalPhone = AdditionalPhone(
    telephoneNumber: Option<string>,
    telephoneSupplementary: Option<string>)

  /** One decoded element of the API's JSON array; absent properties are `None`. */
  datatype RemoteEntity = RemoteEntity(
    id: int,
    langcode: Lang,
    title: Option<string>,
    fieldSummary: Option<string>,
    fieldBodyMd: Option<string>,
    fieldAdditionalInformation: Option<string>,
    fieldAddressPostal: Option<PostalAddress>,
    fieldPhone: Option<string>,
    phoneSupplementary: Option<string>,
    fieldAdditinalPhones: Option<seq<AdditionalPhone>>)

  /**
   * The normalised array after its empty top-level keys are dropped: a key
   * that was dropped is `None`. `meta` is never dropped (it always holds the
   * external key). `phoneRepeater` is the top-level `phone_repeater` key that
   * the code as written creates (see NormalizeAsWritten).
   */
  datatype Normalized = Normalized(
    postTitle: Option<string>,
    meta: MetaMap,
    phoneRepeater: Option<seq<PhoneEntry>>)

  /** The custom fields every normalised entity carries. */
  const MetaFields: set<FieldKey> := {
    ApiIdKey, TitleKey, SummaryKey, DescriptionKey, AdditionalInfoKey,
    PhoneRepeaterKey, StreetKey, ZipCodeKey, CityKey
  }

  /** `$x ?? ''` */
  function OrEmpty(v: Option<string>): string
  {
    v.GetOr("")
  }

  /** The postal address, or one with every part absent. */
  function Postal(e: RemoteEntity): PostalAddress
  {
    e.fieldAddressPostal.GetOr(PostalAddress(None, None, None))
  }

  /** The additional phones, or none when the property is absent. */
  function AdditionalPhones(e: RemoteEntity): seq<AdditionalPhone>
  {
    e.fieldAdditinalPhones.GetOr([])
  }

  function PhoneEntryOf(phone: AdditionalPhone): PhoneEntry
  {
    PhoneEntry(OrEmpty(phone.telephoneSupplementary), phone.telephoneNumber)
  }

  /** The append loop over `field_additinal_phones`: one row per phone, in source order. */
  function AdditionalEntries(phones: seq<AdditionalPhone>): (r: seq<PhoneEntry>)
    ensures |r| == |phones|
    ensures forall i :: 0 <= i < |phones| ==> r[i] == PhoneEntryOf(phones[i])
  {
    if phones == [] then []
    else AdditionalEntries(phones[..|phones| - 1]) + [PhoneEntryOf(phones[|phones| - 1])]
  }

  /**
   * The rows `handle_phone_numbers` appends: the primary phone first (when
   * `field_phone` is not empty), then every additional phone in source order.
   */
  function PhoneList(e: RemoteEntity): seq<PhoneEntry>
  {
    var primary := if PhpEmpty(e.fieldPhone) then [] else [PhoneEntry(OrEmpty(e.phoneSupplementary), e.fieldPhone)];
    primary + AdditionalEntries(AdditionalPhones(e))
  }

  /**
   * The phone rows: one for a non-empty `field_phone` (its supplementary text
   * defaulting to ""), first, then one per additional phone in order; no rows
   * exactly when there is no phone at all.
   */
  lemma PhoneListShape(e: RemoteEntity)
    ensures var r := PhoneList(e);
      && |r| == (if PhpEmpty(e.fieldPhone) then 0 else 1) + |AdditionalPhones(e)|
      && (!PhpEmpty(e.fieldPhone) ==> r[0] == PhoneEntry(OrEmpty(e.phoneSupplementary), e.fieldPhone))
      && (forall i :: 0 <= i < |AdditionalPhones(e)| ==>
            r[|r| - |AdditionalPhones(e)| + i] == PhoneEntryOf(AdditionalPhones(e)[i]))
      && (r == [] <==> PhpEmpty(e.fieldPhone) && AdditionalPhones(e) == [])
  {
  }

  /** The `meta` array as first built, with an empty phone repeater. */
  function BaseMeta(e: RemoteEntity): MetaMap
  {
    map[
      ApiIdKey := Text(ExternalKey(e.id, e.langcode)),
      TitleKey := Text(OrEmpty(e.title)),
      SummaryKey := Text(OrEmpty(e.fieldSummary)),
      DescriptionKey := Text(OrEmpty(e.fieldBodyMd)),
      AdditionalInfoKey := Text(OrEmpty(e.fieldAdditionalInformation)),
      PhoneRepeaterKey := Phones([]),
      StreetKey := Text(OrEmpty(Postal(e).addressLine1)),
      ZipCodeKey := Text(OrEmpty(Postal(e).postalCode)),
      CityKey := Text(OrEmpty(Postal(e).locality))
    ]
  }

  /**
   * The strip loop at the end of `normalize_api_entity`. It visits the
   * top-level keys only: `post_title` goes when PHP finds it empty, a
   * top-level phone list goes when it has no rows, and `meta` stays because
   * it holds the external key. Empty values inside `meta` stay too.
   */
  function StripEmpty(raw: Normalized): Normalized
    requires ApiIdKey in raw.meta
  {
    Normalized(
      if PhpEmpty(raw.postTitle) then None else raw.postTitle,
      raw.meta,
      if raw.phoneRepeater == Some([]) then None else raw.phoneRepeater)
  }

  /**
   * `normalize_api_entity` with the phone rows written into `meta`, where the
   * field group expects them. Every custom field is present, absent API
   * properties default to "", and empty values are kept. This is the
   * intended normaliser; the sync run calls NormalizeAsWritten.
   */
  function Normalize(e: RemoteEntity): (r: Normalized)
    ensures ApiIdKey in r.meta && r.meta[ApiIdKey] == Text(ExternalKey(e.id, e.langcode))
  {
    StripEmpty(Normalized(e.title, BaseMeta(e)[PhoneRepeaterKey := Phones(PhoneList(e))], None))
  }

  /**
   * What `Normalize` promises field by field: every custom field is present,
   * absent API properties become "", empty values stay, the phone repeater
   * holds the phone rows, and `post_title` is dropped exactly when PHP finds
   * the title empty.
   */
  lemma NormalizeFields(e: RemoteEntity)
    ensures var r := Normalize(e);
      && r.meta.Keys == MetaFields
      && r.meta[TitleKey] == Text(OrEmpty(e.title))
      && r.meta[SummaryKey] == Text(OrEmpty(e.fieldSummary))
      && r.meta[DescriptionKey] == Text(OrEmpty(e.fieldBodyMd))
      && r.meta[AdditionalInfoKey] == Text(OrEmpty(e.fieldAdditionalInformation))
      && r.meta[StreetKey] == Text(OrEmpty(Postal(e).addressLine1))
      && r.meta[ZipCodeKey] == Text(OrEmpty(Postal(e).postalCode))
      && r.meta[CityKey] == Text(OrEmpty(Postal(e).locality))
      && r.meta[PhoneRepeaterKey] == Phones(PhoneList(e))
      && (r.postTitle.Some? <==> !PhpEmpty(e.title))
      && (r.postTitle.Some? ==> r.postTitle == e.title)
      && r.phoneRepeater.None?
  {
  }

  /**
   * `normalize_api_entity` as written, the normaliser the sync run calls:
   * `handle_phone_numbers` appends to a new top-level `phone_repeater` key,
   * so `meta` keeps its empty repeater and the phone rows sit beside `meta`,
   * where no later phase reads them.
   */
  function NormalizeAsWritten(e: RemoteEntity): (r: Normalized)
    ensures ApiIdKey in r.meta && r.meta[ApiIdKey] == Text(ExternalKey(e.id, e.langcode))
  {
    var phones := PhoneList(e);
    StripEmpty(Normalized(e.title, BaseMeta(e), if phones == [] then None else Some(phones)))
  }

  /**
   * As written, the normalised entity has every field of the intended one
   * except the phone repeater in `meta`, which stays empty; the phone rows
   * are a top-level key, present exactly when there is a row.
   */
  lemma AsWrittenFields(e: RemoteEntity)
    ensures NormalizeAsWritten(e).meta == Normalize(e).meta[PhoneRepeaterKey := Phones([])]
    ensures NormalizeAsWritten(e).postTitle == Normalize(e).postTitle
    ensures NormalizeAsWritten(e).phoneRepeater.Some? <==> PhoneList(e) != []
    ensures NormalizeAsWritten(e).phoneRepeater.Some? ==> NormalizeAsWritten(e).phoneRepeater.value == PhoneList(e)
  {
  }

  /** As written, the phone repeater in `meta` is always empty, whatever the entity's phones. */
  lemma AsWrittenRepeaterEmpty(e: RemoteEntity)
    ensures PhoneRepeaterKey in NormalizeAsWritten(e).meta
    ensures NormalizeAsWritten(e).meta[PhoneRepeaterKey] == Phones([])
  {
    AsWrittenFields(e);
    NormalizeFields(e);
  }

  /**
   * As written, an entity with any phone reaches the store with an empty
   * phone repeater, while the corrected normaliser stores every row.
   */
  lemma PhonesLostAsWritten(e: RemoteEntity)
    requires !PhpEmpty(e.fieldPhone) || AdditionalPhones(e) != []
    ensures NormalizeAsWritten(e).meta[PhoneRepeaterKey] == Phones([])
    ensures Normalize(e).meta[PhoneRepeaterKey] != NormalizeAsWritten(e).meta[PhoneRepeaterKey]
    ensures NormalizeAsWritten(e).phoneRepeater == Some(PhoneList(e))
  {
    PhoneListShape(e);
    AsWrittenFields(e);
  }

  /** A concrete input: one primary phone, no additional phones. */
  lemma PhonesLostExample()
    ensures var e := RemoteEntity(1, "fi", Some("A"), None, None, None, None, Some("040 123"), None, None);
      && NormalizeAsWritten(e).meta[PhoneRepeaterKey] == Phones([])
      && Normalize(e).meta[PhoneRepeaterKey] == Phones([PhoneEntry("", Some("040 123"))])
  {
    var e := RemoteEntity(1, "fi", Some("A"), None, None, None, None, Some("040 123"), None, None);
    assert PhoneList(e) == [PhoneEntry("", Some("040 123"))];
  }
}
