/** JavaScript values and string operations that the registry relies on:
    `undefined` as an optional value, truthiness, and String.prototype.trim. */
module JsValues {

  datatype Option<+T> = None | Some(value: T)

  /** A JavaScript value as far as the registry inspects it: handler results
      and trigger payloads. Numbers are integers here. */
  datatype JsValue =
    | Undefined
    | Null
    | Bool(b: bool)
    | Number(n: int)
    | Str(s: string)
    | Object(id: nat)

  /** The five falsy values ECMAScript's ToBoolean lists for the kinds of
      value modelled here. */
  const FalsyValues: set<JsValue> := {Undefined, Null, Bool(false), Number(0), Str("")}

  /** ECMAScript ToBoolean, case by case on the kind of value. */
  function Truthy(v: JsValue): (r: bool)
    ensures !r <==> v in FalsyValues
  {
    match v
    case Undefined => false
    case Null => false
    case Bool(b) => b
    case Number(n) => n != 0
    case Str(s) => s != ""
    case Object(_) => true
  }

  /** The characters String.prototype.trim removes: the WhiteSpace
      (including every Zs space separator) and LineTerminator code points. */
  predicate IsJsWhitespace(c: char) {
    || c == '\t' || c == '\U{000B}' || c == '\U{000C}' || c == ' '
    || c == '\U{00A0}' || c == '\U{FEFF}' || c == '\U{1680}'
    || ('\U{2000}' <= c <= '\U{200A}')
    || c == '\U{202F}' || c == '\U{205F}' || c == '\U{3000}'
    || c == '\n' || c == '\r' || c == '\U{2028}' || c == '\U{2029}'
  }

  predicate AllWhitespace(s: string) {
    forall i | 0 <= i < |s| :: IsJsWhitespace(s[i])
  }

  function TrimStart(s: string): (r: string)
    ensures r != [] ==> !IsJsWhitespace(r[0])
  {
    if |s| > 0 && IsJsWhitespace(s[0]) then TrimStart(s[1..]) else s
  }

  function TrimEnd(s: string): (r: string)
    ensures r != [] ==> !IsJsWhitespace(r[|r| - 1])
  {
    if |s| > 0 && IsJsWhitespace(s[|s| - 1]) then TrimEnd(s[..|s| - 1]) else s
  }

  lemma {:induction false} TrimStartIsSuffix(s: string)
    ensures |TrimStart(s)| <= |s| && TrimStart(s) == s[|s| - |TrimStart(s)|..]
    ensures AllWhitespace(s[..|s| - |TrimStart(s)|])
  {
    if |s| > 0 && IsJsWhitespace(s[0]) {
      var tail := s[1..];
      TrimStartIsSuffix(tail);
      var n := |tail| - |TrimStart(tail)|;
      var front := s[..n + 1];
      forall j | 0 <= j < n + 1 ensures IsJsWhitespace(front[j]) {
        if j > 0 { assert front[j] == tail[..n][j - 1]; }
      }
    }
  }

  lemma {:induction false} TrimEndIsPrefix(s: string)
    ensures |TrimEnd(s)| <= |s| && TrimEnd(s) == s[..|TrimEnd(s)|]
    ensures AllWhitespace(s[|TrimEnd(s)|..])
  {
    if |s| > 0 && IsJsWhitespace(s[|s| - 1]) {
      var init := s[..|s| - 1];
      TrimEndIsPrefix(init);
      var m := |TrimEnd(init)|;
      forall j | 0 <= j < |s| - m ensures IsJsWhitespace(s[m..][j]) {
        if j < |s| - 1 - m { assert s[m..][j] == init[m..][j]; }
      }
    }
  }

  /** String.prototype.trim: drop leading and trailing whitespace. */
  function Trim(s: string): (r: string)
    ensures exists i | 0 <= i <= |s| - |r| :: r <= s[i..] && AllWhitespace(s[..i]) && AllWhitespace(s[i + |r|..])
    ensures r != [] ==> !IsJsWhitespace(r[0]) && !IsJsWhitespace(r[|r| - 1])
  {
    var front := TrimStart(s);
    var r := TrimEnd(front);
    TrimStartIsSuffix(s);
    TrimEndIsPrefix(front);
    var i := |s| - |front|;
    assert r <= s[i..];
    assert s[i + |r|..] == front[|r|..];
    r
  }

  lemma {:induction false} TrimStartEmptyIffAllWhitespace(s: string)
    ensures TrimStart(s) == [] <==> AllWhitespace(s)
  {
    if |s| > 0 && IsJsWhitespace(s[0]) {
      TrimStartEmptyIffAllWhitespace(s[1..]);
      assert AllWhitespace(s[1..]) ==> AllWhitespace(s) by {
        if AllWhitespace(s[1..]) {
          forall i | 0 <= i < |s| ensures IsJsWhitespace(s[i]) {
            if i > 0 { assert s[i] == s[1..][i - 1]; }
          }
        }
      }
      assert AllWhitespace(s) ==> AllWhitespace(s[1..]) by {
        if AllWhitespace(s) {
          forall i | 0 <= i < |s| - 1 ensures IsJsWhitespace(s[1..][i]) {
            assert s[1..][i] == s[i + 1];
          }
        }
      }
    } else if |s| > 0 {
      assert !IsJsWhitespace(s[0]);
    }
  }

  lemma {:induction false} TrimEndEmptyIsAllWhitespace(s: string)
    requires TrimEnd(s) == []
    ensures AllWhitespace(s)
  {
    if |s| > 0 {
      var init := s[..|s| - 1];
      TrimEndEmptyIsAllWhitespace(init);
      forall i | 0 <= i < |s| ensures IsJsWhitespace(s[i]) {
        if i < |s| - 1 { assert s[i] == init[i]; }
      }
    }
  }

  /** A string trims to nothing exactly when every character is whitespace. */
  lemma TrimEmptyIffAllWhitespace(s: string)
    ensures Trim(s) == [] <==> AllWhitespace(s)
  {
    TrimStartEmptyIffAllWhitespace(s);
    if Trim(s) == [] {
      TrimEndEmptyIsAllWhitespace(TrimStart(s));
    }
  }

  /** The guard `!folder || !folder.trim().length`: a missing folder name, the
      empty string and a whitespace-only string are all ignored. */
  function IsBlankFolder(folder: Option<string>): (r: bool)
    ensures r <==> folder.None? || AllWhitespace(folder.value)
  {
    match folder
    case None => true
    case Some(f) => TrimEmptyIffAllWhitespace(f); |Trim(f)| == 0
  }
}
