/**
 * Python's `int(text)` in base 10, as `NewVisitForm.__init__` applies it to the
 * submitted company id: surrounding white space is stripped, one optional sign
 * may lead, and single underscores may separate digits.  A text outside that
 * grammar, or with more than `MaxStrDigits` digits, raises ValueError,
 * modelled as `None`.
 */
module PyInt {
  import opened Wrappers
  import Digits

  /**
   * The characters `int()` skips around the digits: ASCII tab to carriage
   * return and space, plus the non-ASCII characters `str.isspace` accepts.
   * The ASCII separators U+001C to U+001F are not among them.
   */
  predicate IsSpace(c: char) {
    c == ' ' || '\t' <= c <= '\r' ||
    c == '\U{85}' || c == '\U{a0}' || c == '\U{1680}' || '\U{2000}' <= c <= '\U{200a}' ||
    c == '\U{2028}' || c == '\U{2029}' || c == '\U{202f}' || c == '\U{205f}' || c == '\U{3000}'
  }

  function TrimLeft(s: string): string {
    if s != [] && IsSpace(s[0]) then TrimLeft(s[1..]) else s
  }

  function TrimRight(s: string): string {
    if s != [] && IsSpace(s[|s| - 1]) then TrimRight(s[..|s| - 1]) else s
  }

  function Strip(s: string): string {
    TrimRight(TrimLeft(s))
  }

  /** Digits, with single underscores allowed only between two digits. */
  predicate IsDigitGroup(s: string) {
    |s| >= 1 && Digits.IsDigit(s[0]) && Digits.IsDigit(s[|s| - 1]) &&
    (forall i :: 0 <= i < |s| ==> Digits.IsDigit(s[i]) || s[i] == '_') &&
    (forall i :: 0 <= i < |s| - 1 ==> s[i] != '_' || s[i + 1] != '_')
  }

  function RemoveUnderscores(s: string): (r: string)
    ensures (forall i :: 0 <= i < |s| ==> Digits.IsDigit(s[i]) || s[i] == '_') ==> Digits.AllDigits(r)
  {
    if s == [] then []
    else if s[0] == '_' then RemoveUnderscores(s[1..])
    else [s[0]] + RemoveUnderscores(s[1..])
  }

  /**
   * The default limit on the number of digits `int()` converts from a string
   * (`sys.get_int_max_str_digits()`); underscores are not counted, leading
   * zeros are.  A longer digit run raises ValueError.
   */
  const MaxStrDigits: nat := 4300

  /** The magnitude of an int. */
  function Abs(n: int): nat {
    if n < 0 then -n else n
  }

  /** `int(s)`; `None` is the ValueError. A result always has at most `MaxStrDigits` digits. */
  function ParseInt(s: string): (r: Option<int>)
    ensures r.Some? ==> |Digits.NatToDigits(Abs(r.value))| <= MaxStrDigits
  {
    var t := Strip(s);
    if t == [] then None
    else
      var signed := t[0] == '+' || t[0] == '-';
      var body := if signed then t[1..] else t;
      if IsDigitGroup(body) && |RemoveUnderscores(body)| <= MaxStrDigits then
        var digits := RemoveUnderscores(body);
        var magnitude: int := Digits.Value(digits);
        Digits.ValueBound(digits);
        Digits.DigitCount(Digits.Value(digits), |digits|);
        var value: int := if t[0] == '-' then -magnitude else magnitude;
        Some(value)
      else None
  }

  /** Python's `str` of an int. */
  function IntToString(n: int): (s: string)
    ensures |s| >= 1
  {
    if n < 0 then "-" + Digits.NatToDigits(-n) else Digits.NatToDigits(n)
  }

  lemma {:induction false} RemoveUnderscoresOfDigits(s: string)
    requires Digits.AllDigits(s)
    ensures RemoveUnderscores(s) == s
  {
    if s != [] {
      RemoveUnderscoresOfDigits(s[1..]);
    }
  }

  /**
   * `int(str(n)) == n` for every int `str` can print: `str` itself raises
   * past `MaxStrDigits` digits.
   */
  lemma ParseIntRoundTrip(n: int)
    requires |Digits.NatToDigits(Abs(n))| <= MaxStrDigits
    ensures ParseInt(IntToString(n)) == Some(n)
  {
    var s := IntToString(n);
    var digits := Digits.NatToDigits(Abs(n));
    assert !IsSpace(s[0]) && !IsSpace(s[|s| - 1]);
    assert TrimLeft(s) == s;
    assert Strip(s) == s;
    var body := if n < 0 then s[1..] else s;
    assert body == digits;
    RemoveUnderscoresOfDigits(digits);
  }

  /** Empty or blank text never parses. */
  lemma {:induction false} BlankDoesNotParse(s: string)
    requires forall i :: 0 <= i < |s| ==> IsSpace(s[i])
    ensures ParseInt(s) == None
  {
    BlankTrimsToEmpty(s);
  }

  lemma {:induction false} BlankTrimsToEmpty(s: string)
    requires forall i :: 0 <= i < |s| ==> IsSpace(s[i])
    ensures TrimLeft(s) == []
  {
    if s != [] {
      BlankTrimsToEmpty(s[1..]);
    }
  }

  /** Blanks around the text do not change what `int()` reads. */
  lemma ParseIntIgnoresBlanks(w1: string, t: string, w2: string)
    requires forall i :: 0 <= i < |w1| ==> IsSpace(w1[i])
    requires forall i :: 0 <= i < |w2| ==> IsSpace(w2[i])
    ensures ParseInt(w1 + t + w2) == ParseInt(t)
  {
    assert w1 + t + w2 == w1 + (t + w2);
    TrimLeftBlankPrefix(w1, t + w2);
    if TrimLeft(t) == [] {
      TrimLeftAllBlank(t, w2);
    } else {
      TrimLeftAppend(t, w2);
      TrimRightBlankSuffix(TrimLeft(t), w2);
    }
  }

  lemma {:induction false} TrimLeftBlankPrefix(w: string, x: string)
    requires forall i :: 0 <= i < |w| ==> IsSpace(w[i])
    ensures TrimLeft(w + x) == TrimLeft(x)
  {
    if w == [] {
      assert w + x == x;
    } else {
      assert (w + x)[0] == w[0];
      assert (w + x)[1..] == w[1..] + x;
      TrimLeftBlankPrefix(w[1..], x);
    }
  }

  lemma {:induction false} TrimLeftAppend(t: string, w: string)
    requires TrimLeft(t) != []
    ensures TrimLeft(t + w) == TrimLeft(t) + w
  {
    assert (t + w)[0] == t[0];
    if IsSpace(t[0]) {
      assert (t + w)[1..] == t[1..] + w;
      TrimLeftAppend(t[1..], w);
    }
  }

  lemma {:induction false} TrimLeftAllBlank(t: string, w: string)
    requires TrimLeft(t) == []
    requires forall i :: 0 <= i < |w| ==> IsSpace(w[i])
    ensures TrimLeft(t + w) == []
  {
    if t == [] {
      assert t + w == w;
      BlankTrimsToEmpty(w);
    } else {
      assert (t + w)[0] == t[0];
      assert (t + w)[1..] == t[1..] + w;
      TrimLeftAllBlank(t[1..], w);
    }
  }

  lemma {:induction false} TrimRightBlankSuffix(x: string, w: string)
    requires forall i :: 0 <= i < |w| ==> IsSpace(w[i])
    ensures TrimRight(x + w) == TrimRight(x)
  {
    if w == [] {
      assert x + w == x;
    } else {
      assert (x + w)[|x + w| - 1] == w[|w| - 1];
      assert (x + w)[..|x + w| - 1] == x + w[..|w| - 1];
      TrimRightBlankSuffix(x, w[..|w| - 1]);
    }
  }

  /** Single underscores between digits are accepted, and a sign may lead. */
  lemma ParseIntUnderscores()
    ensures ParseInt("-1_000") == Some(-1000)
  {
    var t := "-1_000";
    assert TrimLeft(t) == t;
    assert TrimRight(t) == t;
    var body := t[1..];
    assert body == "1_000";
    assert IsDigitGroup(body);
    assert RemoveUnderscores(body) == "1000" by {
      assert body[1..] == "_000";
      assert "_000"[1..] == "000";
      assert "000"[1..] == "00";
      assert "00"[1..] == "0";
      assert "0"[1..] == "";
    }
    assert Digits.Value("1000") == 1000 by {
      assert "1000"[..3] == "100";
      assert "100"[..2] == "10";
      assert "10"[..1] == "1";
    }
  }

  /** Doubled underscores are rejected. */
  lemma ParseIntRejectsDoubleUnderscore()
    ensures ParseInt("1__0") == None
  {
    var t := "1__0";
    assert TrimLeft(t) == t;
    assert TrimRight(t) == t;
    assert !IsDigitGroup(t) by { assert t[1] == '_' && t[2] == '_'; }
  }

  /** Text holding a point never parses: `int("4.5")` raises. */
  lemma ParseIntRejectsPoint(s: string)
    requires '.' in s
    ensures ParseInt(s) == None
  {
    var t := Strip(s);
    TrimLeftKeeps(s, '.');
    TrimRightKeeps(TrimLeft(s), '.');
    var i :| 0 <= i < |t| && t[i] == '.';
    if t[0] == '+' || t[0] == '-' {
      assert t[1..][i - 1] == '.';
    }
  }

  lemma {:induction false} TrimLeftKeeps(s: string, c: char)
    requires c in s && !IsSpace(c)
    ensures c in TrimLeft(s)
  {
    if s != [] && IsSpace(s[0]) {
      assert c in s[1..] by {
        var i :| 0 <= i < |s| && s[i] == c;
        assert i > 0 && s[1..][i - 1] == c;
      }
      TrimLeftKeeps(s[1..], c);
    }
  }

  lemma {:induction false} TrimRightKeeps(s: string, c: char)
    requires c in s && !IsSpace(c)
    ensures c in TrimRight(s)
  {
    if s != [] && IsSpace(s[|s| - 1]) {
      assert c in s[..|s| - 1] by {
        var i :| 0 <= i < |s| && s[i] == c;
        assert i < |s| - 1 && s[..|s| - 1][i] == c;
      }
      TrimRightKeeps(s[..|s| - 1], c);
    }
  }

  /** An ASCII separator is not skipped: `int("\x1c5")` raises. */
  lemma ParseIntRejectsFileSeparator()
    ensures ParseInt("\U{1c}5") == None
  {
    var t := "\U{1c}5";
    assert TrimLeft(t) == t;
    assert TrimRight(t) == t;
    assert !IsDigitGroup(t) by { assert !Digits.IsDigit(t[0]); }
  }

  /** A digit run longer than `MaxStrDigits`, with or without a sign, raises ValueError. */
  lemma LongDigitRunDoesNotParse(sign: string, body: string)
    requires sign == "" || sign == "+" || sign == "-"
    requires IsDigitGroup(body) && |RemoveUnderscores(body)| > MaxStrDigits
    ensures ParseInt(sign + body) == None
  {
    var t := sign + body;
    assert t[|t| - 1] == body[|body| - 1];
    if sign != "" {
      assert t[0] == sign[0];
      assert t[1..] == body;
    } else {
      assert t == body;
      assert Digits.IsDigit(t[0]);
    }
    StripKeepsUnpadded(t);
    var b := if t[0] == '+' || t[0] == '-' then t[1..] else t;
    assert b == body;
  }

  lemma StripKeepsUnpadded(t: string)
    requires t != [] && !IsSpace(t[0]) && !IsSpace(t[|t| - 1])
    ensures Strip(t) == t
  {
    assert TrimLeft(t) == t;
  }
}
