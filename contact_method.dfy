/** The two ways a person can be contacted, and the case-insensitive parse of their names. */
module ContactMethods {
  import opened Wrappers
  import opened Strings

  datatype ContactMethod = SMS | EMAIL

  /** `ContactMethod.name()`. */
  function Name(m: ContactMethod): string
  {
    match m
    case SMS => "SMS"
    case EMAIL => "EMAIL"
  }

  /** `ContactMethod.values()`, in declaration order. */
  function Values(): (vs: seq<ContactMethod>)
    ensures |vs| == 2 && SMS in vs && EMAIL in vs
  {
    [SMS, EMAIL]
  }

  const InvalidValuePrefix := "Invalid value for enum ContactMethod: "

  /** The first of `ms` whose name equals `value` ignoring case (`filter` then `findAny`). */
  function FindIgnoringCase(ms: seq<ContactMethod>, value: string): (r: Option<ContactMethod>)
    ensures r.Some? ==> r.value in ms && EqualsIgnoreCase(Name(r.value), value)
    ensures r.None? ==> forall m :: m in ms ==> !EqualsIgnoreCase(Name(m), value)
  {
    if |ms| == 0 then None
    else if EqualsIgnoreCase(Name(ms[0]), value) then Some(ms[0])
    else FindIgnoringCase(ms[1..], value)
  }

  /**
   * `ContactMethod.toEnum`: the value whose name equals the input ignoring case;
   * otherwise the exception message, with a null input rendered as "null".
   */
  function ToEnum(value: Option<string>): (r: Result<ContactMethod, string>)
    ensures r.Ok? <==> value.Some? && exists m: ContactMethod :: EqualsIgnoreCase(Name(m), value.value)
    ensures r.Ok? ==> EqualsIgnoreCase(Name(r.value), value.value)
    ensures r.Err? ==> r.error == InvalidValuePrefix + (if value.Some? then value.value else "null")
  {
    match value
    case None => Err(InvalidValuePrefix + "null")
    case Some(v) =>
      match FindIgnoringCase(Values(), v)
      case Some(m) => Ok(m)
      case None => Err(InvalidValuePrefix + v)
  }

  /** No two names are equal ignoring case, so at most one value can match. */
  lemma NamesDistinctIgnoringCase(m1: ContactMethod, m2: ContactMethod)
    ensures EqualsIgnoreCase(Name(m1), Name(m2)) <==> m1 == m2
  {
    if m1 != m2 {
      assert |Name(m1)| != |Name(m2)|;
    }
  }

  /** `toEnum(m.name())` gives back `m`, for every value. */
  lemma ToEnumOfName(m: ContactMethod)
    ensures ToEnum(Some(Name(m))) == Ok(m)
  {
    var r := ToEnum(Some(Name(m)));
    EqualsIgnoreCaseIsEquivalence(Name(m), Name(m), Name(m));
    assert r.Ok?;
    NamesDistinctIgnoringCase(r.value, m);
  }

  /** Two inputs that are equal ignoring case parse alike. */
  lemma ToEnumIgnoresCase(s: string, t: string)
    requires EqualsIgnoreCase(s, t)
    ensures ToEnum(Some(s)).Ok? <==> ToEnum(Some(t)).Ok?
    ensures ToEnum(Some(s)).Ok? ==> ToEnum(Some(s)).value == ToEnum(Some(t)).value
  {
    forall m: ContactMethod
      ensures EqualsIgnoreCase(Name(m), s) <==> EqualsIgnoreCase(Name(m), t)
    {
      EqualsIgnoreCaseIsEquivalence(Name(m), s, t);
      EqualsIgnoreCaseIsEquivalence(s, t, Name(m));
      EqualsIgnoreCaseIsEquivalence(t, s, Name(m));
      EqualsIgnoreCaseIsEquivalence(Name(m), t, s);
    }
    if ToEnum(Some(s)).Ok? {
      var a, b := ToEnum(Some(s)).value, ToEnum(Some(t)).value;
      EqualsIgnoreCaseIsEquivalence(Name(a), s, t);
      EqualsIgnoreCaseIsEquivalence(Name(a), t, Name(b));
      EqualsIgnoreCaseIsEquivalence(Name(b), t, Name(b));
      EqualsIgnoreCaseIsEquivalence(t, Name(b), Name(b));
      NamesDistinctIgnoringCase(a, b);
    }
  }

  /** Lower-case names parse; an unknown name gives the exception message. */
  lemma ToEnumExamples()
    ensures ToEnum(Some("sms")) == Ok(SMS)
    ensures ToEnum(Some("Email")) == Ok(EMAIL)
    ensures ToEnum(Some("UNKNOWN")) == Err("Invalid value for enum ContactMethod: UNKNOWN")
    ensures ToEnum(None) == Err("Invalid value for enum ContactMethod: null")
  {
    assert EqualsIgnoreCase(Name(SMS), "sms");
    assert EqualsIgnoreCase(Name(EMAIL), "Email");
    NamesDistinctIgnoringCase(ToEnum(Some("sms")).value, SMS);
    NamesDistinctIgnoringCase(ToEnum(Some("Email")).value, EMAIL);
    assert !EqualsIgnoreCase(Name(EMAIL), "UNKNOWN") by {
      assert UpperChar("UNKNOWN"[0]) != UpperChar(Name(EMAIL)[0]);
    }
    assert InvalidValuePrefix + "UNKNOWN" == "Invalid value for enum ContactMethod: UNKNOWN";
    assert InvalidValuePrefix + "null" == "Invalid value for enum ContactMethod: null";
  }
}
