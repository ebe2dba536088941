/**
 * Values shared by the normaliser, the local store and the sync engine:
 * language tags, custom-field values, PHP's notion of an "empty" string and
 * the external key that joins a remote entity to its local post.
 */
module Entities {
  import opened Wrappers

  type Lang = string

  /**
   * The custom fields the plugin writes on a post. Each stands for the ACF
   * field name that `FieldName` gives; the store keys its metadata by them.
   */
  datatype FieldKey =
    | ApiIdKey            // Sync::ENTITY_API_ID, the external key
    | TitleKey
    | SummaryKey
    | DescriptionKey
    | AdditionalInfoKey
    | PhoneRepeaterKey
    | StreetKey
    | ZipCodeKey
    | CityKey

  /** The field name WordPress stores each custom field under. */
  function FieldName(k: FieldKey): (name: string)
    ensures name != ""
  {
    match k
    case ApiIdKey => "tamperefi_api_id"
    case TitleKey => "title"
    case SummaryKey => "summary"
    case DescriptionKey => "description"
    case AdditionalInfoKey => "additional_information"
    case PhoneRepeaterKey => "phone_repeater"
    case StreetKey => "mail_address_street"
    case ZipCodeKey => "mail_address_zip_code"
    case CityKey => "mail_address_city"
  }

  /** One row of the phone repeater: the supplementary text and the number (null when the API omits it). */
  datatype PhoneEntry = PhoneEntry(phoneText: string, phoneNumber: Option<string>)

  /** A custom-field value: a text field, or the rows of the phone repeater. */
  datatype MetaValue = Text(text: string) | Phones(entries: seq<PhoneEntry>)

  type MetaMap = map<FieldKey, MetaValue>

  /** PHP's `empty()` on a nullable string: null, "" and "0" are all empty. */
  predicate PhpEmpty(v: Option<string>)
  {
    v.None? || v.value == "" || v.value == "0"
  }

  /** The decimal digit for `d`. */
  function DigitChar(d: nat): (c: char)
    requires d < 10
    ensures '0' <= c <= '9'
    ensures DigitValue(c) == d
  {
    ('0' as int + d) as char
  }

  /** The value of a decimal digit. */
  function DigitValue(c: char): nat
    requires '0' <= c <= '9'
  {
    c as int - '0' as int
  }

  /** Every character of `s` is a decimal digit. */
  predicate AllDigits(s: string)
  {
    forall i :: 0 <= i < |s| ==> '0' <= s[i] <= '9'
  }

  /** The number a string of decimal digits denotes, most significant digit first. */
  function DigitsValue(s: string): nat
    requires AllDigits(s)
  {
    if s == [] then 0 else DigitsValue(s[..|s| - 1]) * 10 + DigitValue(s[|s| - 1])
  }

  /**
   * Decimal rendering of a natural number, as PHP's string conversion of an
   * int: the digits denote `n`, with no leading zero.
   */
  function NatToString(n: nat): (r: string)
    ensures |r| >= 1
    ensures AllDigits(r)
    ensures DigitsValue(r) == n
    ensures |r| > 1 ==> r[0] != '0'
    ensures n < 10 <==> |r| == 1
    decreases n
  {
    if n < 10 then [DigitChar(n)] else NatToString(n / 10) + [DigitChar(n % 10)]
  }

  /**
   * The external key `"{id}-{lang}"` stored on every synced post, the id
   * rendered as PHP renders an int (a leading '-' when negative).
   */
  function ExternalKey(id: int, lang: Lang): string
    decreases if id < 0 then 1 else 0
  {
    if id < 0 then "-" + ExternalKey(-id, lang) else NatToString(id) + "-" + lang
  }

  /**
   * An external key always holds at least one digit and the separator, so
   * PHP never treats it as empty and the local index always keeps it.
   */
  lemma ExternalKeyNotEmpty(id: int, lang: Lang)
    ensures |ExternalKey(id, lang)| >= |lang| + 2
    ensures ExternalKey(id, lang)[|ExternalKey(id, lang)| - |lang| - 1] == '-'
    ensures ExternalKey(id, lang)[|ExternalKey(id, lang)| - |lang|..] == lang
    ensures !PhpEmpty(Some(ExternalKey(id, lang)))
  {
    var d := (if id < 0 then "-" else "") + NatToString(if id < 0 then -id else id);
    assert ExternalKey(id, lang) == d + "-" + lang;
  }
}
