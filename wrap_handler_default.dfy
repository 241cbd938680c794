/**
 * The default handler wrapper of the library: reads two boolean
 * environment variables and wraps the handler in a logger only when one of
 * them is true.
 */
module WrapHandlerDefault {

  import opened Wrappers
  import opened Strings
  import opened Handlers

  /**
   * `_is_true_environ`: the value of the variable, or `None` when it is not
   * set, read as a boolean. Surrounding whitespace is ignored; a number is
   * true when it is not zero; `true` and `false` are recognised in any case;
   * anything else, like an unset variable, gives `default`.
   */
  function IsTrueEnviron(value: Option<string>, default: bool): bool {
    match value
    case None => default
    case Some(v) =>
      var s := Strip(v);
      if IsDigits(s) then DigitsValue(s) != 0
      else
        var l := Lower(s);
        if l == "true" then true
        else if l == "false" then false
        else default
  }

  /** A number is true exactly when one of its digits is not `0`. */
  lemma NumberValue(v: string, default: bool)
    requires IsDigits(Strip(v))
    ensures IsTrueEnviron(Some(v), default) <==> exists i :: 0 <= i < |Strip(v)| && Strip(v)[i] != '0'
  {
    DigitsValueNonZero(Strip(v));
  }

  /**
   * The default decides exactly when the variable is unset or its value is
   * neither a number nor `true` or `false` in some case.
   */
  lemma DefaultDecides(value: Option<string>)
    ensures IsTrueEnviron(value, true) != IsTrueEnviron(value, false) <==>
      value.None? || (!IsDigits(Strip(value.value)) && Lower(Strip(value.value)) != "true"
                      && Lower(Strip(value.value)) != "false")
    ensures value.None? ==> IsTrueEnviron(value, true) && !IsTrueEnviron(value, false)
  {
  }

  /** Stripping the value first changes nothing. */
  lemma StripFirst(v: string, default: bool)
    ensures IsTrueEnviron(Some(Strip(v)), default) == IsTrueEnviron(Some(v), default)
  {
    StripIdempotent(v);
  }

  /** Values that agree up to case and surrounding whitespace read the same. */
  lemma CaseAndSpaceBlind(v: string, w: string, default: bool)
    requires Lower(Strip(v)) == Lower(Strip(w))
    ensures IsTrueEnviron(Some(v), default) == IsTrueEnviron(Some(w), default)
  {
    var a, b := Strip(v), Strip(w);
    if IsDigits(a) {
      LowerDigits(a, b);
    } else if IsDigits(b) {
      LowerDigits(b, a);
    }
  }

  /** Lower-casing leaves digits alone and never produces one, so digit strings equal up to case are equal. */
  lemma LowerDigits(a: string, b: string)
    requires IsDigits(a) && Lower(a) == Lower(b)
    ensures a == b
  {
    assert |a| == |b|;
    forall i | 0 <= i < |a| ensures a[i] == b[i] {
      assert LowerChar(a[i]) == a[i];
      assert LowerChar(b[i]) == LowerChar(a[i]);
    }
  }

  // ---- the values of tests/test_funcs.py for `_is_true_environ` ----

  /** A word with one space on each side strips to the word. */
  lemma StripPadded(word: string)
    requires |word| > 0 && !IsSpace(word[0]) && !IsSpace(word[|word| - 1])
    ensures Strip(" " + word + " ") == word
  {
    var s := " " + word + " ";
    assert s[1..] == word + " ";
    assert (word + " ")[0] == word[0];
    assert LeadingSpaces(s[1..]) == 0;
    assert (word + " ")[..|word|] == word;
    assert TrailingSpaces(word) == 0;
    assert s[1..|s| - 1] == word;
  }

  /** A padded word that is not a number reads as `true`, `false` or the default. */
  lemma PaddedWord(word: string, default: bool)
    requires |word| > 0 && !IsSpace(word[0]) && !IsSpace(word[|word| - 1]) && !IsDigit(word[0])
    ensures IsTrueEnviron(Some(" " + word + " "), default) ==
      if Lower(word) == "true" then true else if Lower(word) == "false" then false else default
  {
    StripPadded(word);
  }

  /**
   * `" tRuE "` is true. Here and below a test's literal is a parameter fixed
   * by `requires` only to keep the proof cheap: Dafny would otherwise unfold
   * the literal character by character.
   */
  lemma TestTrue(word: string)
    requires word == "tRuE"
    ensures IsTrueEnviron(Some(" " + word + " "), false)
  {
    LowerWords(word, "FaLsE");
    PaddedWord(word, false);
  }

  /** `" FaLsE "` is false. */
  lemma TestFalse(word: string)
    requires word == "FaLsE"
    ensures !IsTrueEnviron(Some(" " + word + " "), false)
  {
    LowerWords("tRuE", word);
    PaddedWord(word, false);
  }

  lemma LowerWords(t: string, f: string)
    requires t == "tRuE" && f == "FaLsE"
    ensures Lower(t) == "true" && Lower(f) == "false"
    ensures |t| > 0 && !IsSpace(t[0]) && !IsSpace(t[|t| - 1]) && !IsDigit(t[0])
    ensures |f| > 0 && !IsSpace(f[0]) && !IsSpace(f[|f| - 1]) && !IsDigit(f[0])
  {
  }

  lemma TestZero()
    ensures !IsTrueEnviron(Some(" 0 "), false)
  {
    StripPadded("0");
    assert " " + "0" + " " == " 0 ";
    assert DigitsValue("0") == 0;
  }

  lemma TestZeroZero()
    ensures !IsTrueEnviron(Some(" 00 "), false)
  {
    StripPadded("00");
    assert " " + "00" + " " == " 00 ";
    assert "00"[..1] == "0";
    assert DigitsValue("00") == 0;
  }

  lemma TestNonZero()
    ensures IsTrueEnviron(Some("23"), false)
  {
    assert LeadingSpaces("23") == 0 && TrailingSpaces("23") == 0;
    assert Strip("23") == "23";
    assert "23"[..1] == "2";
    assert DigitsValue("23") == 23;
  }

  lemma TestOne()
    ensures IsTrueEnviron(Some(" 1 "), false)
  {
    StripPadded("1");
    assert " " + "1" + " " == " 1 ";
    assert DigitsValue("1") == 1;
  }

  lemma TestOtherText(default: bool)
    ensures IsTrueEnviron(Some("labuda"), default) == default
  {
    var s := "labuda";
    assert LeadingSpaces(s) == 0 && TrailingSpaces(s) == 0;
    assert Strip(s) == s;
    assert !IsDigit(s[0]);
    assert Lower(s) == s;
  }

  lemma TestUnset(default: bool)
    ensures IsTrueEnviron(None, default) == default
  {
  }

  /**
   * `wrap_aws_handler_default`: the handler itself when neither variable is
   * true, otherwise the logging wrapper around it with the two flags.
   */
  function WrapAwsHandlerDefault(env: Environ, h: Handler): Handler {
    WrapWithFlags(IsTrueEnviron(EnvGet(env, RequestsVar), false),
                  IsTrueEnviron(EnvGet(env, ResponsesVar), false), h)
  }

  /**
   * Without either variable set to a true value the handler is returned
   * unchanged; otherwise each call is logged as asked, and the wrapped
   * handler calls the application once and returns its response.
   */
  lemma WrapAwsHandlerDefaultSpec(env: Environ, h: Handler, respond: (nat, Json) -> Json, event: Json)
    ensures var lq, ls := IsTrueEnviron(EnvGet(env, RequestsVar), false),
                          IsTrueEnviron(EnvGet(env, ResponsesVar), false);
      var w := WrapAwsHandlerDefault(env, h);
      && (RequestsVar !in env && ResponsesVar !in env ==> w == h)
      && (!lq && !ls <==> w == h)
      && (lq || ls ==> w == Logging(h, lq, ls))
      && Invoke(w, respond, event).response == Invoke(h, respond, event).response
      && Calls(Invoke(w, respond, event).effects) == 1
  {
    var lq, ls := IsTrueEnviron(EnvGet(env, RequestsVar), false),
                  IsTrueEnviron(EnvGet(env, ResponsesVar), false);
    WrapWithFlagsSpec(lq, ls, h, respond, event);
  }
}
