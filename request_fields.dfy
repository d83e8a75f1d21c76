/** How the controllers read optional fields of a JSON request body. */
module RequestFields {
  import opened Wrappers
  import Strings

  /** JavaScript truthiness of an optional string field. */
  predicate Truthy(field: Option<string>)
  {
    field.Some? && field.value != ""
  }

  /** A field as a template literal prints it. */
  function Interpolate(field: Option<string>): string
  {
    if field.Some? then field.value else "undefined"
  }

  /** `field?.toLowerCase() === "true"`. */
  predicate Flag(field: Option<string>)
  {
    field.Some? && Strings.ToLower(field.value) == "true"
  }

  /** The flag ignores case: a field and its lower-cased form read the same. */
  lemma FlagIgnoresCase(s: string)
    ensures Flag(Some(s)) <==> Flag(Some(Strings.ToLower(s)))
  {
    Strings.ToLowerIdempotent(s);
  }

  /** "true" in any case sets a flag; anything else, and an absent field, does not. */
  lemma FlagExamples()
    ensures Flag(Some("true")) && Flag(Some("TRUE")) && Flag(Some("True"))
    ensures !Flag(Some("yes")) && !Flag(Some("1")) && !Flag(Some("")) && !Flag(None)
  {
    assert Strings.ToLower("TRUE") == "true";
    assert Strings.ToLower("True") == "true";
    assert Strings.ToLower("yes")[0] == 'y';
    assert Strings.ToLower("1")[0] == '1';
  }
}
