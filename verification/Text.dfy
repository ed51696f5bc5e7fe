/** The string operations the services normalise their input with. */
module Text {

  /** White space in the sense of Unicode's White_Space property. */
  predicate IsSpace(c: char) {
    || '\t' <= c <= '\r'
    || c in {' ', '\U{85}', '\U{A0}', '\U{1680}', '\U{2028}', '\U{2029}', '\U{202F}', '\U{205F}', '\U{3000}'}
    || '\U{2000}' <= c <= '\U{200A}'
  }

  function TrimLeft(s: string): (r: string)
    ensures |r| <= |s| && (|r| == |s| ==> r == s)
    ensures r == [] || !IsSpace(r[0])
  {
    if s == [] || !IsSpace(s[0]) then s else TrimLeft(s[1..])
  }

  function TrimRight(s: string): (r: string)
    ensures r <= s
    ensures r == [] || !IsSpace(r[|r| - 1])
  {
    if s == [] || !IsSpace(s[|s| - 1]) then s else TrimRight(s[..|s| - 1])
  }

  function Trim(s: string): string {
    TrimRight(TrimLeft(s))
  }

  predicate Trimmed(s: string) {
    s == [] || (!IsSpace(s[0]) && !IsSpace(s[|s| - 1]))
  }

  lemma TrimTrims(s: string)
    ensures Trimmed(Trim(s))
    ensures Trimmed(s) <==> Trim(s) == s
  {
    var r := TrimRight(TrimLeft(s));
    if r != [] {
      assert r[0] == TrimLeft(s)[0];
    }
  }

  function LowerChar(c: char): char {
    if 'A' <= c <= 'Z' then (c as int + 32) as char else c
  }

  function Lower(s: string): (r: string)
    ensures |r| == |s|
  {
    if s == [] then [] else [LowerChar(s[0])] + Lower(s[1..])
  }

  lemma {:induction false} LowerAt(s: string)
    ensures forall i :: 0 <= i < |s| ==> Lower(s)[i] == LowerChar(s[i])
  {
    if s == [] {
    } else {
      LowerAt(s[1..]);
    }
  }

  /** The letters A to Z are lowered and no others; the white space is that of Unicode. */
  lemma LetterMeaning(c: char, i: nat)
    ensures i < 26 ==> LowerChar("ABCDEFGHIJKLMNOPQRSTUVWXYZ"[i]) == "abcdefghijklmnopqrstuvwxyz"[i]
    ensures !('A' <= c <= 'Z') ==> LowerChar(c) == c
    ensures IsSpace(c) <==>
              c as int in {9, 10, 11, 12, 13, 0x20, 0x85, 0xA0, 0x1680, 0x2000, 0x2001, 0x2002, 0x2003, 0x2004, 0x2005,
                           0x2006, 0x2007, 0x2008, 0x2009, 0x200A, 0x2028, 0x2029, 0x202F, 0x205F, 0x3000}
  {}

  predicate IsLower(s: string) {
    forall i :: 0 <= i < |s| ==> LowerChar(s[i]) == s[i]
  }

  lemma LowerMeaning(s: string)
    ensures IsLower(s) <==> Lower(s) == s
    ensures IsLower(Lower(s))
    ensures Trimmed(s) <==> Trimmed(Lower(s))
  {
    LowerAt(s);
    LowerAt(Lower(s));
  }

  /** The order of strings by their characters. */
  predicate Less(a: string, b: string) {
    if b == "" then false
    else if a == "" then true
    else a[0] < b[0] || (a[0] == b[0] && Less(a[1..], b[1..]))
  }

  lemma {:induction false} LessTrichotomy(a: string, b: string)
    ensures !(Less(a, b) && Less(b, a)) && !Less(a, a)
    ensures a != b ==> Less(a, b) || Less(b, a)
  {
    if a == "" {
    } else {
      LessTrichotomy(a[1..], if b == "" then "" else b[1..]);
      if b != "" && a[0] == b[0] && a[1..] == b[1..] { assert a == [a[0]] + a[1..] == b; }
    }
  }

  lemma {:induction false} LessTransitive(a: string, b: string, c: string)
    requires Less(a, b) && Less(b, c)
    ensures Less(a, c)
  {
    if a == "" {
    } else if a[0] == b[0] == c[0] {
      LessTransitive(a[1..], b[1..], c[1..]);
    }
  }

  /** Fields separated by colons. */
  function Join(fields: seq<string>): string
    requires fields != []
  {
    if |fields| == 1 then fields[0] else fields[0] + ":" + Join(fields[1..])
  }

  predicate ColonFree(s: string) {
    ':' !in s
  }

  /** Colon-free fields can be read back from the joined text. */
  lemma {:induction false} JoinInjective(a: seq<string>, b: seq<string>)
    requires a != [] && b != []
    requires forall f :: f in a || f in b ==> ColonFree(f)
    requires Join(a) == Join(b)
    ensures a == b
  {
    var t := Join(a);
    FirstField(a);
    FirstField(b);
    assert ColonFree(a[0]) && ColonFree(b[0]);
    assert |a[0]| == |b[0]|;
    assert a[0] == t[..|a[0]|] == b[0];
    if |t| > |a[0]| {
      assert Join(a[1..]) == t[|a[0]| + 1..] == Join(b[1..]);
      assert forall f :: f in a[1..] ==> f in a;
      assert forall f :: f in b[1..] ==> f in b;
      JoinInjective(a[1..], b[1..]);
      assert a == [a[0]] + a[1..] && b == [b[0]] + b[1..];
    } else {
      assert a == [a[0]] && b == [b[0]];
    }
  }

  lemma FirstField(a: seq<string>)
    requires a != []
    ensures |Join(a)| >= |a[0]| && Join(a)[..|a[0]|] == a[0]
    ensures |a| == 1 ==> Join(a) == a[0]
    ensures |a| > 1 ==> |Join(a)| > |a[0]| && Join(a)[|a[0]|] == ':' && Join(a)[|a[0]| + 1..] == Join(a[1..])
  {}

  /** strings.ToLower after strings.TrimSpace. */
  function Normal(value: string): string {
    Lower(Trim(value))
  }

  lemma NormalMeaning(v: string)
    ensures Trimmed(Normal(v)) && IsLower(Normal(v))
    ensures Normal(v) == v <==> Trimmed(v) && IsLower(v)
    ensures Normal(Normal(v)) == Normal(v)
    ensures Trimmed(v) ==> Normal(v) == Lower(v)
  {
    hide Trim, Lower;
    TrimTrims(v);
    LowerMeaning(Trim(v));
    LowerMeaning(v);
    LowerMeaning(Normal(v));
    TrimTrims(Normal(v));
  }
}
