/** The rewrite the chat page applies to every reply before showing it,
    `text.replace(/\\n/g, '\n')`: each two-character sequence backslash, `n`
    becomes one line break, matches found left to right without overlap. */
module NewlineEscape {

  /** A backslash followed by `n` starts at index `i` of `s`. */
  predicate EscapeAt(s: string, i: int) {
    0 <= i && i + 1 < |s| && s[i] == '\\' && s[i + 1] == 'n'
  }

  /** No backslash-`n` pair occurs anywhere in `s`. */
  predicate NoEscapes(s: string) {
    forall i :: 0 <= i < |s| ==> !EscapeAt(s, i)
  }

  predicate NoLineBreaks(s: string) {
    forall i :: 0 <= i < |s| ==> s[i] != '\n'
  }

  /** The number of indices at which a backslash-`n` pair starts, counted
      over every index (not only where a left-to-right scan would look). */
  function EscapeCount(s: string): nat {
    if |s| < 2 then 0
    else (if EscapeAt(s, 0) then 1 else 0) + EscapeCount(s[1..])
  }

  /** `s.replace(/\\n/g, '\n')`. The result never contains a backslash-`n`
      pair, is no longer than `s`, is empty exactly when `s` is, and starts
      with the first character of `s` or with the line break that replaced
      it. */
  function Unescape(s: string): (r: string)
    ensures |r| <= |s|
    ensures r == [] <==> s == []
    ensures r != [] ==> r[0] == s[0] || r[0] == '\n'
    ensures NoEscapes(r)
  {
    if EscapeAt(s, 0) then
      var rest := Unescape(s[2..]);
      ConsNoEscapes('\n', rest);
      ['\n'] + rest
    else if s == [] then []
    else
      var rest := Unescape(s[1..]);
      ConsNoEscapes(s[0], rest);
      [s[0]] + rest
  }

  /** Putting `c` in front of a pair-free string creates no pair unless `c`
      is a backslash and the string starts with `n`. */
  lemma ConsNoEscapes(c: char, rest: string)
    requires NoEscapes(rest)
    requires rest == [] || c != '\\' || rest[0] != 'n'
    ensures NoEscapes([c] + rest)
  {
    var t := [c] + rest;
    forall i | 0 <= i < |t|
      ensures !EscapeAt(t, i)
    {
      if i > 0 {
        assert !EscapeAt(rest, i - 1);
      }
    }
  }

  /** The inverse rewrite: each line break becomes a backslash and `n`. */
  function Escape(t: string): (r: string)
    ensures NoLineBreaks(r)
    ensures |r| >= |t|
  {
    if t == [] then []
    else if t[0] == '\n' then "\\n" + Escape(t[1..])
    else [t[0]] + Escape(t[1..])
  }

  /** The output is shorter than the input by one character per
      backslash-`n` pair the input contains. */
  lemma {:induction false} UnescapeLength(s: string)
    ensures |Unescape(s)| == |s| - EscapeCount(s)
  {
    if EscapeAt(s, 0) {
      UnescapeLength(s[2..]);
      assert !EscapeAt(s[1..], 0);
      assert s[1..][1..] == s[2..];
    } else if s != [] {
      UnescapeLength(s[1..]);
    }
  }

  /** The count is zero exactly when no pair occurs. */
  lemma {:induction false} EscapeCountZero(s: string)
    ensures EscapeCount(s) == 0 <==> NoEscapes(s)
  {
    if |s| >= 2 {
      EscapeCountZero(s[1..]);
      if NoEscapes(s[1..]) && !EscapeAt(s, 0) {
        forall i | 0 <= i < |s|
          ensures !EscapeAt(s, i)
        {
          if i > 0 {
            assert !EscapeAt(s[1..], i - 1);
          }
        }
      }
      if NoEscapes(s) {
        forall i | 0 <= i < |s[1..]|
          ensures !EscapeAt(s[1..], i)
        {
          assert !EscapeAt(s, i + 1);
        }
      }
    }
  }

  /** A string is left unchanged exactly when it holds no backslash-`n`
      pair. */
  lemma UnescapeFixpoint(s: string)
    ensures Unescape(s) == s <==> NoEscapes(s)
  {
    UnescapeLength(s);
    EscapeCountZero(s);
    if NoEscapes(s) {
      UnescapeOfPlain(s);
    }
  }

  lemma {:induction false} UnescapeOfPlain(s: string)
    requires NoEscapes(s)
    ensures Unescape(s) == s
  {
    if s != [] {
      assert !EscapeAt(s, 0);
      assert NoEscapes(s[1..]) by {
        forall i | 0 <= i < |s[1..]|
          ensures !EscapeAt(s[1..], i)
        {
          assert !EscapeAt(s, i + 1);
        }
      }
      UnescapeOfPlain(s[1..]);
    }
  }

  /** Unescaping twice is unescaping once. */
  lemma UnescapeIdempotent(s: string)
    ensures Unescape(Unescape(s)) == Unescape(s)
  {
    UnescapeOfPlain(Unescape(s));
  }

  /** On a string with no backslash-`n` pair, unescaping undoes escaping:
      every line break comes back and every other character is kept in
      place. */
  lemma {:induction false} UnescapeEscape(t: string)
    requires NoEscapes(t)
    ensures Unescape(Escape(t)) == t
  {
    if t != [] {
      assert NoEscapes(t[1..]) by {
        forall i | 0 <= i < |t[1..]|
          ensures !EscapeAt(t[1..], i)
        {
          assert !EscapeAt(t, i + 1);
        }
      }
      UnescapeEscape(t[1..]);
      var e := Escape(t);
      if t[0] == '\n' {
        assert e[2..] == Escape(t[1..]);
      } else {
        assert e[1..] == Escape(t[1..]);
        if t[0] == '\\' && |t| > 1 {
          assert !EscapeAt(t, 0);
          assert Escape(t[1..])[0] != 'n';
        }
      }
    }
  }

  /** On a string with no line break, escaping undoes unescaping: the
      rewrite is one-to-one there and loses nothing. */
  lemma {:induction false} EscapeUnescape(s: string)
    requires NoLineBreaks(s)
    ensures Escape(Unescape(s)) == s
  {
    if EscapeAt(s, 0) {
      EscapeUnescape(s[2..]);
      assert s == "\\n" + s[2..];
    } else if s != [] {
      EscapeUnescape(s[1..]);
      var u := Unescape(s);
      assert u[1..] == Unescape(s[1..]);
      assert s == [s[0]] + s[1..];
    }
  }

  /** On every string, escaping the unescaped text gives what escaping the
      original gives: unescaping only turns pairs into the line breaks that
      escape to the same pairs, and keeps every other character in order. */
  lemma {:induction false} EscapeUnescapeAll(s: string)
    ensures Escape(Unescape(s)) == Escape(s)
  {
    if EscapeAt(s, 0) {
      EscapeUnescapeAll(s[2..]);
      assert Escape(s) == "\\" + Escape(s[1..]);
      assert Escape(s[1..]) == "n" + Escape(s[2..]);
    } else if s != [] {
      EscapeUnescapeAll(s[1..]);
      var u := Unescape(s);
      assert u[1..] == Unescape(s[1..]);
    }
  }

  /** What `s.replace(/\\n/g, '\n')` shows, stated without the rewrite
      itself: the one pair-free text that escapes to the same string as `s`. */
  lemma UnescapeCharacterized(s: string, t: string)
    requires NoEscapes(t)
    ensures t == Unescape(s) <==> Escape(t) == Escape(s)
  {
    EscapeUnescapeAll(s);
    if Escape(t) == Escape(s) {
      UnescapeEscape(t);
      UnescapeEscape(Unescape(s));
    }
  }
}
