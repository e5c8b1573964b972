/** `String.prototype.trim` as the ECMAScript standard defines it (section 22.1.3.32 of
    ECMA-262, TrimString): it removes leading and trailing WhiteSpace and LineTerminator
    code points. The add-todo guard in frontend/src/app/page.tsx uses it. */
module JsString {

  /** WhiteSpace (section 12.2 of ECMA-262: TAB, VT, FF, ZWNBSP and every code point of
      Unicode category Zs) or LineTerminator (section 12.3: LF, CR, LS, PS). */
  predicate IsTrimmable(c: char) {
    var n := c as int;
    n == 0x09 || n == 0x0B || n == 0x0C || n == 0xFEFF                 // TAB VT FF ZWNBSP
    || n == 0x20 || n == 0xA0 || n == 0x1680 || (0x2000 <= n <= 0x200A)
    || n == 0x202F || n == 0x205F || n == 0x3000                        // category Zs
    || n == 0x0A || n == 0x0D || n == 0x2028 || n == 0x2029             // LF CR LS PS
  }

  predicate AllTrimmable(s: string) {
    forall k :: 0 <= k < |s| ==> IsTrimmable(s[k])
  }

  function TrimStart(s: string): string {
    if s != [] && IsTrimmable(s[0]) then TrimStart(s[1..]) else s
  }

  function TrimEnd(s: string): string {
    if s != [] && IsTrimmable(s[|s| - 1]) then TrimEnd(s[..|s| - 1]) else s
  }

  /** `s.trim()` */
  function Trim(s: string): string {
    TrimEnd(TrimStart(s))
  }

  /** TrimStart drops a prefix made only of trimmable code points and keeps the rest,
      which does not start with one. */
  lemma {:induction false} TrimStartShape(s: string)
    ensures |TrimStart(s)| <= |s|
    ensures TrimStart(s) == s[|s| - |TrimStart(s)|..]
    ensures AllTrimmable(s[..|s| - |TrimStart(s)|])
    ensures TrimStart(s) != [] ==> !IsTrimmable(TrimStart(s)[0])
  {
    if s != [] && IsTrimmable(s[0]) {
      TrimStartShape(s[1..]);
      var n := |s| - |TrimStart(s)|;
      assert s[..n] == [s[0]] + s[1..][..n - 1];
    }
  }

  /** TrimEnd drops a suffix made only of trimmable code points and keeps the rest,
      which does not end with one. */
  lemma {:induction false} TrimEndShape(s: string)
    ensures |TrimEnd(s)| <= |s|
    ensures TrimEnd(s) == s[..|TrimEnd(s)|]
    ensures AllTrimmable(s[|TrimEnd(s)|..])
    ensures TrimEnd(s) != [] ==> !IsTrimmable(TrimEnd(s)[|TrimEnd(s)| - 1])
  {
    if s != [] && IsTrimmable(s[|s| - 1]) {
      var t := s[..|s| - 1];
      TrimEndShape(t);
      var n := |TrimEnd(s)|;
      assert s[n..] == t[n..] + [s[|s| - 1]];
    }
  }

  /** The trimmed string is the slice s[i..j] that remains once the trimmable prefix
      s[..i] and the trimmable suffix s[j..] are dropped, and it neither starts nor ends
      with a trimmable code point. */
  lemma TrimShape(s: string)
    ensures exists i, j ::
              0 <= i <= j <= |s| && Trim(s) == s[i..j] && AllTrimmable(s[..i]) && AllTrimmable(s[j..])
    ensures Trim(s) != [] ==> !IsTrimmable(Trim(s)[0]) && !IsTrimmable(Trim(s)[|Trim(s)| - 1])
  {
    var t := TrimStart(s);
    TrimStartShape(s);
    TrimEndShape(t);
    var i := |s| - |t|;
    var j := i + |TrimEnd(t)|;
    assert Trim(s) == s[i..j];
    assert s[j..] == t[|TrimEnd(t)|..];
  }

  /** `!s.trim()` holds, that is the trimmed string is the falsy empty string, exactly
      when every code point of s is trimmable. */
  lemma TrimEmptyIffBlank(s: string)
    ensures Trim(s) == "" <==> AllTrimmable(s)
  {
    var t := TrimStart(s);
    TrimStartShape(s);
    TrimEndShape(t);
    if Trim(s) == "" {
      assert s == s[..|s| - |t|] + t;
    }
  }
}
