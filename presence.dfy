/** Attribute values and the presence test that Rails validations use.

    A record attribute is a string column that may be nil, so a value is an
    `Option<string>`. `presence: true` accepts a value exactly when it is not
    `blank?`: nil, the empty string and a string made only of white space are
    blank; every other string is present.
 */
module Presence {

  /** A nullable attribute value: `None` stands for Ruby's nil. */
  datatype Option<+T> = None | Some(value: T)

  /** The characters of the POSIX class [[:space:]] on a UTF-8 string, i.e. the
      Unicode White_Space property, which String#blank? tests every character against. */
  predicate IsSpace(c: char)
  {
    || ('\t' <= c <= '\r')
    || c == ' '
    || c == '\U{0085}'
    || c == '\U{00A0}'
    || c == '\U{1680}'
    || ('\U{2000}' <= c <= '\U{200A}')
    || c == '\U{2028}'
    || c == '\U{2029}'
    || c == '\U{202F}'
    || c == '\U{205F}'
    || c == '\U{3000}'
  }

  /** `blank?` on a nullable string attribute. */
  predicate Blank(v: Option<string>)
  {
    v.None? || forall i :: 0 <= i < |v.value| ==> IsSpace(v.value[i])
  }

  /** `present?`, the test behind `validates :attr, presence: true`. */
  predicate Present(v: Option<string>)
  {
    !Blank(v)
  }

  /** A present value is a non-nil string with at least one character that is not white space. */
  lemma PresentMeansSomeNonSpace(v: Option<string>)
    ensures Present(v) <==> v.Some? && exists i :: 0 <= i < |v.value| && !IsSpace(v.value[i])
  {
  }

  /** nil, "" and white-space-only strings are blank. */
  lemma BlankValues(s: string)
    requires forall i :: 0 <= i < |s| ==> IsSpace(s[i])
    ensures Blank(None) && Blank(Some("")) && Blank(Some(s))
    ensures Blank(Some(" ")) && Blank(Some("\t\n"))
  {
  }

  /** A string whose character at `i` is not white space is present, whatever the rest holds. */
  lemma PresentAt(s: string, i: nat)
    requires i < |s| && !IsSpace(s[i])
    ensures Present(Some(s))
  {
  }

  /** The validation messages the core can produce. */
  datatype Message = CantBeBlank | NotIncluded

  /** The English text Rails attaches to each message. */
  function Text(m: Message): string
  {
    match m
    case CantBeBlank => "can't be blank"
    case NotIncluded => "is not included in the list"
  }
}
