/** White space as JavaScript's `\s` and `String.prototype.trim` see it. */
module JsStrings {
  predicate IsSpace(c: char) {
    var n := c as int;
    9 <= n <= 13 || n == 32 || n == 0xA0 || n == 0x1680 || 0x2000 <= n <= 0x200A
    || n in {0x2028, 0x2029, 0x202F, 0x205F, 0x3000, 0xFEFF}
  }

  /** `s.replace(/\s/g, "")` */
  function WithoutSpaces(s: string): string {
    if s == [] then []
    else if IsSpace(s[0]) then WithoutSpaces(s[1..])
    else [s[0]] + WithoutSpaces(s[1..])
  }

  function TrimLeft(s: string): (t: string)
    ensures t == [] || !IsSpace(t[0])
  {
    if s != [] && IsSpace(s[0]) then TrimLeft(s[1..]) else s
  }

  function TrimRight(s: string): (t: string)
    ensures t <= s && (t == [] || !IsSpace(t[|t| - 1]))
  {
    if s != [] && IsSpace(s[|s| - 1]) then TrimRight(s[..|s| - 1]) else s
  }

  /** `s.trim()` */
  function Trim(s: string): (t: string)
    ensures Trimmed(t)
  {
    TrimRight(TrimLeft(s))
  }

  predicate Trimmed(s: string) {
    s == [] || (!IsSpace(s[0]) && !IsSpace(s[|s| - 1]))
  }

  /** `s.length`, in UTF-16 code units. */
  function Length(s: string): nat {
    if s == [] then 0 else (if s[0] as int >= 0x1_0000 then 2 else 1) + Length(s[1..])
  }

  lemma {:induction false} TrimLeftPrefix(s: string, t: string)
    ensures TrimLeft(s + t) == if TrimLeft(s) == [] then TrimLeft(t) else TrimLeft(s) + t
  {
    if s == [] {
      assert s + t == t;
    } else if IsSpace(s[0]) {
      assert (s + t)[1..] == s[1..] + t;
      TrimLeftPrefix(s[1..], t);
    }
  }

  lemma {:induction false} TrimTrimmed(s: string)
    ensures Trim(TrimLeft(s)) == Trim(s)
    ensures Trim(s) == s <==> Trimmed(s)
    ensures Trimmed(s) ==> TrimLeft(s) == s
  {
  }

  lemma {:induction false} SpaceStripped(a: string, c: char, b: string)
    requires IsSpace(c)
    ensures WithoutSpaces(a + [c] + b) == WithoutSpaces(a + b)
  {
    if a == [] {
      assert [c] + b == ([] + [c]) + b && ([c] + b)[1..] == b == [] + b;
    } else {
      SpaceStripped(a[1..], c, b);
      assert (a + [c] + b)[1..] == a[1..] + [c] + b && (a + b)[1..] == a[1..] + b;
    }
  }

  lemma {:induction false} NothingToStrip(s: string)
    requires forall c :: c in s ==> !IsSpace(c)
    ensures WithoutSpaces(s) == s
  {
    if s != [] {
      assert s[0] in s && s == [s[0]] + s[1..];
      NothingToStrip(s[1..]);
    }
  }
}
