/**
 * The form field container of cbform/form.go: fields looked up by name, and
 * the error text of a field, title-cased as Go's `strings.Title` does it on
 * ASCII text.
 */
module Form {
  import opened Wrappers

  /** The opaque `Value` of a field (Go's `interface{}`); `None` is nil. */
  datatype Value = Value(repr: string)

  /** A field; `error` is the message of its error, `None` when the error is nil. */
  datatype Field = Field(name: string, kind: string, placeholder: string, labelText: string,
                         jsValidationError: string, jsValidationSuccess: string,
                         error: Option<string>, help: string, value: Option<Value>)

  /** `&Field{}`: every string empty, no error, no value. */
  const ZeroField := Field("", "", "", "", "", "", None, "", None)

  datatype Container = Container(fields: map<string, Field>)

  /** The last field named `name` among `fields`, if any. */
  function LastNamed(fields: seq<Field>, name: string): (r: Option<Field>)
    ensures r.None? <==> forall k :: 0 <= k < |fields| ==> fields[k].name != name
    ensures r.Some? ==> exists k :: 0 <= k < |fields| && fields[k] == r.value && r.value.name == name &&
                                    forall j :: k < j < |fields| ==> fields[j].name != name
  {
    if fields == [] then None
    else
      var last := fields[|fields| - 1];
      if last.name == name then Some(last) else LastNamed(fields[..|fields| - 1], name)
  }

  /** `GetField`: the field registered under `name`, or a zero field when there is none. */
  function GetField(c: Container, name: string): (f: Field)
    ensures name in c.fields ==> f == c.fields[name]
    ensures name !in c.fields ==> f == ZeroField
  {
    if name in c.fields then c.fields[name] else ZeroField
  }

  /**
   * `New`: every field registered under its name, in order, so that a later
   * field overwrites an earlier one with the same name.
   */
  method New(fields: seq<Field>) returns (c: Container)
    ensures forall name :: GetField(c, name) == match LastNamed(fields, name)
                                                case Some(f) => f
                                                case None => ZeroField
  {
    var mapFields: map<string, Field> := map[];
    var key := 0;
    while key < |fields|
      invariant 0 <= key <= |fields|
      invariant forall name :: (name in mapFields) == LastNamed(fields[..key], name).Some?
      invariant forall name :: name in mapFields ==> mapFields[name] == LastNamed(fields[..key], name).value
    {
      assert fields[..key + 1][..key] == fields[..key];
      mapFields := mapFields[fields[key].name := fields[key]];
      key := key + 1;
    }
    assert fields[..|fields|] == fields;
    c := Container(mapFields);
  }

  // ------------------------------------------------------------------
  // Title case
  // ------------------------------------------------------------------

  predicate IsAsciiAlnum(c: char) {
    ('a' <= c <= 'z') || ('A' <= c <= 'Z') || ('0' <= c <= '9')
  }

  /**
   * Go's `isSeparator` on ASCII: letters, digits and '_' are not separators,
   * any other ASCII character is. Other characters are taken as letters.
   */
  predicate IsSeparator(c: char) {
    c < 128 as char && !IsAsciiAlnum(c) && c != '_'
  }

  /** `unicode.ToTitle` on ASCII: lower-case letters become upper-case, anything else is kept. */
  function TitleChar(c: char): (r: char)
    ensures 'a' <= c <= 'z' ==> 'A' <= r <= 'Z' && r as int - c as int == 'A' as int - 'a' as int
    ensures !('a' <= c <= 'z') ==> r == c
  {
    if 'a' <= c <= 'z' then (c as int - 'a' as int + 'A' as int) as char else c
  }

  /** `strings.Title` with `prev` the character before `s` (a space at the start). */
  function TitleFrom(s: string, prev: char): (r: string)
    ensures |r| == |s|
    ensures forall i :: 0 <= i < |s| ==>
      r[i] == if IsSeparator(if i == 0 then prev else s[i - 1]) then TitleChar(s[i]) else s[i]
  {
    if s == [] then []
    else [if IsSeparator(prev) then TitleChar(s[0]) else s[0]] + TitleFrom(s[1..], s[0])
  }

  /** Title-casing keeps the length, capitalises the first letter and every letter after a separator, and nothing else. */
  function Title(s: string): (r: string)
    ensures |r| == |s|
    ensures forall i :: 0 <= i < |s| ==> r[i] == if i == 0 || IsSeparator(s[i - 1]) then TitleChar(s[i]) else s[i]
  {
    TitleFrom(s, ' ')
  }

  lemma TitleCharFacts(c: char)
    ensures IsSeparator(TitleChar(c)) == IsSeparator(c)
    ensures TitleChar(TitleChar(c)) == TitleChar(c)
  {
  }

  /** Title-casing twice is the same as once: upper-casing never turns a character into a separator or back. */
  lemma {:induction false} TitleIdempotent(s: string)
    ensures Title(Title(s)) == Title(s)
  {
    var t := Title(s);
    var u := Title(t);
    forall i | 0 <= i < |s| ensures u[i] == t[i] {
      TitleCharFacts(s[i]);
      if i > 0 {
        TitleCharFacts(s[i - 1]);
        assert t[i - 1] == if i - 1 == 0 || IsSeparator(s[i - 2]) then TitleChar(s[i - 1]) else s[i - 1];
        assert IsSeparator(t[i - 1]) == IsSeparator(s[i - 1]);
      }
      assert t[i] == if i == 0 || IsSeparator(s[i - 1]) then TitleChar(s[i]) else s[i];
      assert u[i] == if i == 0 || IsSeparator(t[i - 1]) then TitleChar(t[i]) else t[i];
    }
    assert u == t;
  }

  // ------------------------------------------------------------------
  // Errors
  // ------------------------------------------------------------------

  /** `HasError`: the field carries an error, whatever its message. */
  predicate HasError(f: Field): (b: bool)
    ensures b <==> f.error != None
  {
    f.error.Some?
  }

  /** `GetError`: "" without an error, otherwise the title-cased message. */
  function GetError(f: Field): (r: string)
    ensures !HasError(f) ==> r == ""
    ensures HasError(f) ==> |r| == |f.error.value| && r == Title(f.error.value)
  {
    if f.error.Some? then Title(f.error.value) else ""
  }

  /**
   * A non-empty error text means the field has an error, but not the other
   * way round: an error whose message is empty reads as "".
   */
  lemma ErrorTextAndHasError(f: Field)
    ensures GetError(f) != "" ==> HasError(f)
    ensures HasError(f) ==> (GetError(f) == "" <==> f.error.value == "")
  {
  }

  /** A zero field, as `GetField` returns for an unknown name, has no error and empty texts. */
  lemma UnknownFieldIsBlank(c: Container, name: string)
    requires name !in c.fields
    ensures !HasError(GetField(c, name)) && GetError(GetField(c, name)) == ""
    ensures GetField(c, name).name == "" && GetField(c, name).value == None
  {
  }
}
