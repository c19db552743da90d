/** How `handleRunCode` turns the code box into an ExtendScript call
    (js/app.js:283-290): the trimmed code is escaped by three global
    replacements and placed between double quotes. */
module ScriptEscape {
  import opened Optional
  import opened JsStrings

  /** A global replacement of one character by a fixed string:
      `.replace(/\\/g, '\\\\')` and `.replace(/"/g, '\\"')`. */
  function ReplaceChar(s: string, c: char, rep: string): (r: string)
    ensures c !in rep ==> c !in r
    ensures forall x :: x in s && x != c ==> x in r
    decreases |s|
  {
    if |s| == 0 then ""
    else (if s[0] == c then rep else [s[0]]) + ReplaceChar(s[1..], c, rep)
  }

  /** `.replace(/\r?\n/g, '\\n')`: a carriage return directly before a line
      feed goes with it; a lone carriage return stays. */
  function ReplaceNewlines(s: string): (r: string)
    ensures '\n' !in r
    decreases |s|
  {
    if |s| == 0 then ""
    else if |s| >= 2 && s[0] == '\r' && s[1] == '\n' then "\\n" + ReplaceNewlines(s[2..])
    else if s[0] == '\n' then "\\n" + ReplaceNewlines(s[1..])
    else [s[0]] + ReplaceNewlines(s[1..])
  }

  /** The escaping expression of js/app.js:288; its result never holds a
      raw line feed. */
  function EscapeCode(code: string): (r: string)
    ensures '\n' !in r
  {
    ReplaceNewlines(ReplaceChar(ReplaceChar(code, '\\', "\\\\"), '"', "\\\""))
  }

  /** The string-literal body one character escapes to. */
  function EscapeChar(c: char): string {
    if c == '\\' then "\\\\"
    else if c == '"' then "\\\""
    else if c == '\n' then "\\n"
    else [c]
  }

  /** Escapes every character on its own: the reference the three passes
      are checked against. */
  function EscapeEach(s: string): string
    decreases |s|
  {
    if |s| == 0 then "" else EscapeChar(s[0]) + EscapeEach(s[1..])
  }

  /** Reads the body of a double-quoted ExtendScript string literal back into
      the string it denotes, for the escapes `\\`, `\"` and `\n`. A raw
      quote, line feed or carriage return, a lone trailing backslash and any
      other escape make it fail. */
  function DecodeLiteral(s: string): (r: Option<string>)
    decreases |s|
  {
    if |s| == 0 then Some("")
    else if s[0] == '\\' then
      if |s| < 2 then None
      else
        var c := if s[1] == 'n' then Some('\n')
                 else if s[1] == '"' || s[1] == '\\' then Some(s[1])
                 else None;
        match (c, DecodeLiteral(s[2..]))
        case (Some(d), Some(rest)) => Some([d] + rest)
        case _ => None
    else if s[0] == '"' || s[0] == '\n' || s[0] == '\r' then None
    else
      match DecodeLiteral(s[1..])
      case Some(rest) => Some([s[0]] + rest)
      case None => None
  }

  lemma {:induction false} ReplaceCharConcat(a: string, b: string, c: char, rep: string)
    ensures ReplaceChar(a + b, c, rep) == ReplaceChar(a, c, rep) + ReplaceChar(b, c, rep)
    decreases |a|
  {
    if |a| > 0 {
      assert (a + b)[0] == a[0];
      assert (a + b)[1..] == a[1..] + b;
      ReplaceCharConcat(a[1..], b, c, rep);
    } else {
      assert a + b == b;
    }
  }

  /** On one character the replacement is `rep` for `c` and the character
      itself otherwise; with `ReplaceCharConcat` this fixes the result on
      every string. */
  lemma ReplaceCharOne(x: char, c: char, rep: string)
    ensures ReplaceChar([x], c, rep) == (if x == c then rep else [x])
  {
    assert [x][1..] == "";
  }

  /** A string without the character comes back unchanged. */
  lemma {:induction false} ReplaceCharAbsent(s: string, c: char, rep: string)
    requires c !in s
    ensures ReplaceChar(s, c, rep) == s
    decreases |s|
  {
    if |s| > 0 {
      assert c !in s[1..] by { assert forall k :: 0 <= k < |s| - 1 ==> s[1..][k] == s[k + 1]; }
      ReplaceCharAbsent(s[1..], c, rep);
      assert s == [s[0]] + s[1..];
    }
  }

  /** `a` without one final carriage return: the optional `\r?` that a
      match of `/\r?\n/` takes along before its line feed. */
  function DropFinalCarriageReturn(a: string): string {
    if |a| > 0 && a[|a| - 1] == '\r' then a[..|a| - 1] else a
  }

  /** Text without a line feed holds no match, so it comes back unchanged:
      a lone carriage return stays. */
  lemma {:induction false} ReplaceNewlinesWithoutLineFeed(s: string)
    requires '\n' !in s
    ensures ReplaceNewlines(s) == s
    decreases |s|
  {
    if |s| > 0 {
      assert '\n' !in s[1..] by { assert forall k :: 0 <= k < |s| - 1 ==> s[1..][k] == s[k + 1]; }
      ReplaceNewlinesWithoutLineFeed(s[1..]);
      assert s == [s[0]] + s[1..];
    }
  }

  /** The leftmost match is the first line feed together with a carriage
      return right before it, if there is one; it becomes `\n` and the
      search goes on after it. With `ReplaceNewlinesWithoutLineFeed` this
      fixes the result on every string. */
  lemma {:induction false} ReplaceNewlinesFirstLineFeed(a: string, b: string)
    requires '\n' !in a
    ensures ReplaceNewlines(a + "\n" + b) == DropFinalCarriageReturn(a) + "\\n" + ReplaceNewlines(b)
    decreases |a|
  {
    var s := a + "\n" + b;
    if |a| == 0 {
      assert s == "\n" + b && s[1..] == b;
    } else {
      var x, t := a[0], a[1..];
      assert a == [x] + t;
      if x == '\r' && |t| == 0 {
        assert s == "\r\n" + b && s[2..] == b;
      } else {
        assert '\n' !in t && x != '\n';
        assert s == [x] + (t + "\n" + b);
        ReplaceNewlinesCons(x, t + "\n" + b);
        ReplaceNewlinesFirstLineFeed(t, b);
        DropFinalCarriageReturnCons(x, t);
      }
    }
  }

  /** A character that neither is a line feed nor starts `\r\n` is copied. */
  lemma ReplaceNewlinesCons(x: char, r: string)
    requires x != '\n' && !(x == '\r' && |r| > 0 && r[0] == '\n')
    ensures ReplaceNewlines([x] + r) == [x] + ReplaceNewlines(r)
  {
    assert ([x] + r)[0] == x && ([x] + r)[1..] == r;
  }

  lemma DropFinalCarriageReturnCons(x: char, t: string)
    requires !(x == '\r' && |t| == 0)
    ensures DropFinalCarriageReturn([x] + t) == [x] + DropFinalCarriageReturn(t)
  {
    if |t| > 0 {
      assert ([x] + t)[..|t|] == [x] + t[..|t| - 1];
    }
  }

  lemma {:induction false} ReplaceNewlinesConcat(a: string, b: string)
    requires '\r' !in a
    ensures ReplaceNewlines(a + b) == ReplaceNewlines(a) + ReplaceNewlines(b)
    decreases |a|
  {
    if |a| > 0 {
      assert (a + b)[0] == a[0];
      assert (a + b)[1..] == a[1..] + b;
      ReplaceNewlinesConcat(a[1..], b);
    } else {
      assert a + b == b;
    }
  }

  /** On one character other than a carriage return, the three passes
      produce that character's escape. */
  lemma EscapeCodeOneChar(c: char)
    requires c != '\r'
    ensures EscapeCode([c]) == EscapeChar(c)
  {
    assert [c][1..] == "";
    if c == '\\' {
      assert ReplaceChar([c], '\\', "\\\\") == "\\\\" + ReplaceChar("", '\\', "\\\\");
      assert ReplaceChar("\\\\", '"', "\\\"") == "\\\\";
      assert ReplaceNewlines("\\\\") == "\\\\";
    } else if c == '"' {
      assert ReplaceChar([c], '"', "\\\"") == "\\\"" + ReplaceChar("", '"', "\\\"");
      assert ReplaceNewlines("\\\"") == "\\\"";
    } else if c == '\n' {
      assert ReplaceNewlines([c]) == "\\n" + ReplaceNewlines("");
    } else {
      assert ReplaceNewlines([c]) == [c] + ReplaceNewlines("");
    }
  }

  /** Without carriage returns, the three passes escape each character on
      its own. */
  lemma {:induction false} EscapeCodeIsEscapeEach(s: string)
    requires '\r' !in s
    ensures EscapeCode(s) == EscapeEach(s)
    decreases |s|
  {
    if |s| > 0 {
      var c, t := s[0], s[1..];
      assert s == [c] + t;
      EscapeCodeIsEscapeEach(t);
      ReplaceCharConcat([c], t, '\\', "\\\\");
      var p1c, p1t := ReplaceChar([c], '\\', "\\\\"), ReplaceChar(t, '\\', "\\\\");
      ReplaceCharConcat(p1c, p1t, '"', "\\\"");
      var p2c := ReplaceChar(p1c, '"', "\\\"");
      assert '\r' !in p2c by {
        assert p1c == (if c == '\\' then "\\\\" else [c]) + ReplaceChar("", '\\', "\\\\");
        ReplaceCharNoNewChar(p1c, '"', "\\\"", '\r');
      }
      ReplaceNewlinesConcat(p2c, ReplaceChar(p1t, '"', "\\\""));
      EscapeCodeOneChar(c);
    }
  }

  lemma {:induction false} ReplaceCharNoNewChar(s: string, c: char, rep: string, x: char)
    requires x !in s && x !in rep
    ensures x !in ReplaceChar(s, c, rep)
    decreases |s|
  {
    if |s| > 0 {
      ReplaceCharNoNewChar(s[1..], c, rep, x);
    }
  }

  /** Decoding what `EscapeEach` produces gives back the original string. */
  lemma {:induction false} DecodeEscapeEach(s: string)
    requires '\r' !in s
    ensures DecodeLiteral(EscapeEach(s)) == Some(s)
    decreases |s|
  {
    if |s| > 0 {
      var c, t := s[0], s[1..];
      assert '\r' !in t by { assert forall k :: 0 <= k < |t| ==> t[k] == s[k + 1]; }
      DecodeEscapeEach(t);
      var e := EscapeEach(s);
      assert e == EscapeChar(c) + EscapeEach(t);
      if c == '\\' || c == '"' || c == '\n' {
        assert e[2..] == EscapeEach(t);
      } else {
        assert e[1..] == EscapeEach(t);
      }
      assert s == [c] + t;
    }
  }

  /** For code without carriage returns, the escaped code is a well-formed
      string-literal body that denotes exactly the code. */
  lemma EscapeCodeRoundTrip(code: string)
    requires '\r' !in code
    ensures DecodeLiteral(EscapeCode(code)) == Some(code)
  {
    EscapeCodeIsEscapeEach(code);
    DecodeEscapeEach(code);
  }

  /** The script `handleRunCode` hands to the host (js/app.js:283-290), or
      `None` when the trimmed code is empty and the panel only alerts. */
  function RunCodeScript(codeInput: string): (r: Option<string>)
    ensures r.None? <==> AllWhitespace(codeInput)
  {
    var code := Trim(codeInput);
    if code == "" then None
    else Some("runDynamicExtendScript(\"" + EscapeCode(code) + "\")")
  }

  /** The script is one call whose single string argument denotes the
      trimmed code, provided the code holds no carriage return. */
  lemma RunCodeScriptDenotesCode(codeInput: string)
    requires !AllWhitespace(codeInput) && '\r' !in codeInput
    ensures exists lit ::
      && RunCodeScript(codeInput) == Some("runDynamicExtendScript(\"" + lit + "\")")
      && DecodeLiteral(lit) == Some(Trim(codeInput))
  {
    var code := Trim(codeInput);
    var i := TrimIsInfix(codeInput);
    assert '\r' !in code;
    EscapeCodeRoundTrip(code);
    var lit := EscapeCode(code);
    assert RunCodeScript(codeInput) == Some("runDynamicExtendScript(\"" + lit + "\")");
  }
}
