/** Comments as fixed wording with keys set into it, and where a `name: value` needle can be found in one. */
module Wording {
  import opened Text

  /** A stretch of fixed wording, or a key (a ticket, a boss, an id) set into it. */
  datatype Bit = Say(text: string) | Key(text: string)

  function Written(bits: seq<Bit>): string {
    if bits == [] then "" else bits[0].text + Written(bits[1..])
  }

  lemma {:induction false} WrittenParts(a: seq<Bit>, b: seq<Bit>)
    ensures Written(a + b) == Written(a) + Written(b)
  {
    if a == [] {
      assert a + b == b;
    } else {
      assert (a + b)[1..] == a[1..] + b;
      WrittenParts(a[1..], b);
    }
  }

  /** A text around one of its bits. */
  lemma WrittenAround(bits: seq<Bit>, k: nat)
    requires k < |bits|
    ensures Written(bits) == Written(bits[..k]) + bits[k].text + Written(bits[k + 1..])
  {
    WrittenParts(bits[..k], bits[k..]);
    assert bits == bits[..k] + bits[k..] && bits[k..][1..] == bits[k + 1..];
  }

  lemma {:induction false} WrittenIsFree(bits: seq<Bit>, c: char)
    requires forall i :: 0 <= i < |bits| ==> c !in bits[i].text
    ensures c !in Written(bits)
  {
    if bits != [] { WrittenIsFree(bits[1..], c); }
  }

  /** A text is as long as any two of its bits together. */
  lemma WrittenHoldsTwo(bits: seq<Bit>, i: nat, j: nat)
    requires i < j < |bits|
    ensures |Written(bits)| >= |bits[i].text| + |bits[j].text|
  {
    WrittenAround(bits, i);
    WrittenAround(bits[i + 1..], j - i - 1);
  }

  /** A text ends as its last bit does. */
  lemma WrittenEnds(bits: seq<Bit>)
    requires bits != [] && bits[|bits| - 1].text != []
    ensures var s, last := Written(bits), bits[|bits| - 1].text; s != [] && s[|s| - 1] == last[|last| - 1]
  {
    WrittenAround(bits, |bits| - 1);
    assert bits[|bits|..] == [];
  }

  // ---------- needles ----------

  predicate IsLower(c: char) { 'a' <= c <= 'z' }

  /** A name of at least two lower-case letters. */
  predicate IsName(name: string) {
    |name| >= 2 && forall i :: 0 <= i < |name| ==> IsLower(name[i])
  }

  /** `name: `, or `name: d` for a digit d. */
  predicate IsNeedle(name: string, v: string) {
    IsName(name) && (v == [] || (|v| == 1 && IsDigit(v[0])))
  }

  /** Every colon has two characters before it, and they are not the name's last two. */
  predicate Clean(s: string, name: string)
    requires |name| >= 2
  {
    forall i :: 0 <= i < |s| && s[i] == ':' ==> i >= 2 && !(s[i - 2] == name[|name| - 2] && s[i - 1] == name[|name| - 1])
  }

  /** Wording no needle of that name can lie in or begin in: it is clean and does not end in a letter. */
  predicate Calm(s: string, name: string)
    requires |name| >= 2
  {
    s != [] && !IsLower(s[|s| - 1]) && Clean(s, name)
  }

  /** Wording that may follow a key. */
  predicate Follows(s: string) {
    |s| > 0 && s[0] in {' ', ',', '.', '\''} && (s[0] == ' ' ==> |s| > 1 && !IsDigit(s[1]))
  }

  /** Calm wording, with wording after every key but a last one. */
  predicate WellWorded(bits: seq<Bit>, name: string)
    requires |name| >= 2
  {
    forall i :: 0 <= i < |bits| ==>
      && (bits[i].Say? ==> Calm(bits[i].text, name))
      && (bits[i].Key? && i + 1 < |bits| ==> bits[i + 1].Say? && Follows(bits[i + 1].text))
  }

  /** No key holds the needle, and none before a space ends just short of the needle's. */
  predicate KeysLack(bits: seq<Bit>, name: string, v: string) {
    forall i :: 0 <= i < |bits| && bits[i].Key? ==>
      && !Contains(bits[i].text, name + ": " + v)
      && (v == [] && i + 1 < |bits| && StartsWith(bits[i + 1].text, " ") ==> !EndsWith(bits[i].text, name + ":"))
  }

  /** Where a needle is, its colon follows its name and its space the colon. */
  lemma NeedleAt(s: string, name: string, v: string, i: int)
    requires IsNeedle(name, v)
    ensures OccursAt(s, name + ": " + v, i) ==>
      var c := i + |name|;
      && 2 <= c && c + 1 + |v| < |s| && s[c] == ':' && s[c + 1] == ' '
      && s[c - 1] == name[|name| - 1] && s[c - 2] == name[|name| - 2]
      && (forall q :: i <= q < c ==> IsLower(s[q])) && (v != [] ==> s[c + 2] == v[0])
  {
    var t := name + ": " + v;
    if OccursAt(s, t, i) {
      assert forall q :: 0 <= q < |t| ==> s[i + q] == t[q];
      assert forall q :: i <= q < i + |name| ==> s[q] == t[q - i] == name[q - i];
      assert t[|name|] == ':' && t[|name| + 1] == ' ' && t[|name| - 1] == name[|name| - 1] && t[|name| - 2] == name[|name| - 2];
      assert v != [] ==> t[|name| + 2] == v[0];
    }
  }

  /** A needle in two parts lies in one of them or across them. */
  lemma OccursSplit(x: string, y: string, t: string, i: int)
    ensures OccursAt(x + y, t, i) ==>
      && (i + |t| <= |x| ==> OccursAt(x, t, i))
      && (|x| <= i ==> OccursAt(y, t, i - |x|))
      && (i <= |x| <= i + |t| ==> EndsWith(x, t[..|x| - i]))
  {
    var s := x + y;
    if OccursAt(s, t, i) {
      if i + |t| <= |x| { assert x[i..i + |t|] == s[i..i + |t|]; }
      if |x| <= i { assert y[i - |x|..i - |x| + |t|] == s[i..i + |t|]; }
      if i <= |x| <= i + |t| { assert x[i..] == s[i..i + |t|][..|x| - i]; }
    }
  }

  /** Calm wording adds no needle to what follows it. */
  lemma SayAddsNone(p: string, rest: string, name: string, v: string)
    requires IsNeedle(name, v) && Calm(p, name) && !Contains(rest, name + ": " + v)
    ensures !Contains(p + rest, name + ": " + v)
  {
    var t := name + ": " + v;
    forall i ensures !OccursAt(p + rest, t, i) {
      NeedleAt(p + rest, name, v, i);
      OccursSplit(p, rest, t, i);
      FrontOf(p, rest);
    }
  }

  lemma FrontOf(p: string, rest: string)
    ensures forall c :: 0 <= c < |p| ==> (p + rest)[c] == p[c]
  {
  }

  /** A key adds none to the wording after it, unless it holds one or ends just short of the space. */
  lemma KeyAddsNone(k: string, rest: string, name: string, v: string)
    requires IsNeedle(name, v) && !Contains(k, name + ": " + v) && !Contains(rest, name + ": " + v)
    requires rest == [] || (Follows(rest) && (v == [] && rest[0] == ' ' ==> !EndsWith(k, name + ":")))
    ensures !Contains(k + rest, name + ": " + v)
  {
    var t := name + ": " + v;
    assert t[..|name| + 1] == name + ":";
    forall i ensures !OccursAt(k + rest, t, i) {
      NeedleAt(k + rest, name, v, i);
      OccursSplit(k, rest, t, i);
      assert rest != [] ==> (k + rest)[|k|] == rest[0];
      assert |rest| > 1 ==> (k + rest)[|k| + 1] == rest[1];
    }
  }

  lemma {:induction false} NoNeedle(bits: seq<Bit>, name: string, v: string)
    requires IsNeedle(name, v) && WellWorded(bits, name) && KeysLack(bits, name, v)
    ensures !Contains(Written(bits), name + ": " + v)
    decreases |bits|
  {
    if bits != [] {
      var rest := bits[1..];
      NoNeedleRest(bits, name, v);
      NoNeedle(rest, name, v);
      hide WellWorded, KeysLack, Contains, Calm, IsNeedle;
      match bits[0] {
        case Say(p) => SayAddsNone(p, Written(rest), name, v);
        case Key(k) => KeyAddsNone(k, Written(rest), name, v);
      }
    }
  }

  lemma NoNeedleRest(bits: seq<Bit>, name: string, v: string)
    requires IsNeedle(name, v) && WellWorded(bits, name) && KeysLack(bits, name, v) && bits != []
    ensures WellWorded(bits[1..], name) && KeysLack(bits[1..], name, v)
    ensures bits[0].Say? ==> Calm(bits[0].text, name)
    ensures bits[0].Key? ==> !Contains(bits[0].text, name + ": " + v)
    ensures bits[0].Key? ==>
      var rest := Written(bits[1..]);
      rest == [] || (Follows(rest) && (v == [] && rest[0] == ' ' ==> !EndsWith(bits[0].text, name + ":")))
  {
    var rest := bits[1..];
    hide Calm, Contains, EndsWith;
    assert forall i :: 0 <= i < |rest| ==> rest[i] == bits[i + 1];
    if |rest| > 0 && bits[0].Key? {
      assert Written(rest) == rest[0].text + Written(rest[1..]);
      assert Follows(rest[0].text);
    }
  }

  /** Across a space the only tail after a needle is the rest of the text. */
  lemma TailAcross(front: string, r: string, name: string, w: string)
    requires IsName(name) && r != [] && r[0] == ' '
    requires !Contains(front, name + ": ") && !Contains(r, name + ": ") && EndsWith(front + r, name + ": " + w)
    ensures w == r[1..]
  {
    var s, t := front + r, name + ": ";
    var i := |s| - |t + w|;
    assert s[i..] == t + w;
    assert OccursAt(s, t, i) by { assert s[i..i + |t|] == s[i..][..|t|]; }
    OccursSplit(front, r, t, i);
    assert s[|front|] == ' ' && t[|name|] == ':';
    assert forall q :: 0 <= q < |t| ==> s[i + q] == t[q];
    assert forall q :: 0 <= q < |name| ==> t[q] == name[q];
    assert |front| == i + |t| - 1;
    assert w == s[i + |t|..] && s[|front| + 1..] == r[1..];
  }

  lemma ContainsWithin(a: string, k: string, b: string, t: string)
    requires Contains(k, t)
    ensures Contains(a + k + b, t)
  {
    var i :| 0 <= i <= |k| && OccursAt(k, t, i);
    assert (a + k + b)[|a| + i..|a| + i + |t|] == k[i..i + |t|];
    assert OccursAt(a + k + b, t, |a| + i);
  }

  /** On a line of its own a name's value is the only one the line ends with, unless the value holds another. */
  lemma OwnLine(name: string, k: string, w: string)
    requires IsName(name) && forall i :: 0 < i < |name| ==> name[i] != name[0]
    requires EndsWith(name + ": " + k, name + ": " + w)
    ensures w == k || Contains(k, name + ": ")
  {
    var l, t := name + ": " + k, name + ": ";
    var i := |k| - |w|;
    var n := |name|;
    assert forall q :: 0 <= q < n + 2 + |w| ==> l[i + q] == (name + ": " + w)[q];
    assert l[i] == name[0] && l[n] == ':' && l[n + 1] == ' ';
    assert forall q :: 0 <= q < n ==> l[q] == name[q];
    assert i == 0 || i >= n + 2;
    if i >= n + 2 {
      assert forall q :: 0 <= q < n + 2 ==> l[i + q] == t[q];
      assert k[i - n - 2..i] == t;
      assert OccursAt(k, t, i - n - 2);
    } else {
      assert l[n + 2..] == k && (name + ": " + w)[n + 2..] == w;
    }
  }

  // ---------- what a text ends with ----------

  /** A needle in a key leaves a tail after it. */
  lemma HeldTail(k: string, t: string) returns (y: string)
    requires Contains(k, t)
    ensures EndsWith(k, t + y) && |y| + |t| <= |k|
  {
    var i :| 0 <= i <= |k| && OccursAt(k, t, i);
    y := k[i + |t|..];
    assert k[i..] == t + y;
  }

  lemma EndIsHeld(s: string, t: string, y: string)
    requires EndsWith(s, t + y)
    ensures Contains(s, t)
  {
    var a := s[..|s| - |t + y|];
    assert s == a + t + y;
    ContainsMiddle(a, t, y);
  }

  /** Where a text runs on after one of its bits, what the bit ends with begins an ending of the text. */
  lemma RunsOn(bits: seq<Bit>, j: nat, m: nat, t: string)
    requires j + 1 < m < |bits| && EndsWith(bits[j].text, t)
    requires bits[j + 1].text != [] && bits[|bits| - 1].text != []
    ensures var r, last := Written(bits[j + 1..]), bits[|bits| - 1].text;
      && EndsWith(Written(bits), t + r) && StartsWith(r, bits[j + 1].text) && r != [] && r[|r| - 1] == last[|last| - 1]
      && |r| >= |bits[j + 1].text| + |bits[m].text|
  {
    var rest := bits[j + 1..];
    WrittenAround(bits, j);
    WrittenEnds(rest);
    WrittenHoldsTwo(rest, 0, m - j - 1);
    var k := bits[j].text;
    var a := k[..|k| - |t|];
    assert k == a + t;
    assert Written(bits) == (Written(bits[..j]) + a) + (t + Written(rest));
  }

  // ---------- needles in joined lines ----------

  predicate EndsALine(lines: seq<string>, t: string) {
    exists k :: 0 <= k < |lines| - 1 && EndsWith(lines[k], t)
  }

  predicate InALine(lines: seq<string>, t: string) {
    exists k :: 0 <= k < |lines| && Contains(lines[k], t)
  }

  lemma NeedleReads(s: string, t: string, i: int)
    requires OccursAt(s, t, i)
    ensures i + |t| <= |s| && forall q :: i <= q < i + |t| ==> s[q] == t[q - i]
  {
    assert forall q :: 0 <= q < |t| ==> s[i + q] == t[q];
  }

  lemma OccursAfterLine(l: string, rest: string, t: string, i: int)
    requires OccursAt(l + "\n" + rest, t + "\n", i) && '\n' !in l && '\n' !in t
    ensures EndsWith(l, t) || Contains(rest, t + "\n")
  {
    var s := l + "\n" + rest;
    NeedleReads(s, t + "\n", i);
    var e := i + |t|;
    assert s[e] == (t + "\n")[|t|];
    assert forall q :: 0 <= q < |l| ==> s[q] == l[q] && l[q] != '\n';
    assert e >= |l| && s[|l|] == '\n';
    assert forall r :: 0 <= r < |t| ==> t[r] != '\n' && (t + "\n")[r] == t[r];
    assert !(i <= |l| < e);
    if e == |l| {
      assert l[i..] == t;
    } else {
      var j := i - |l| - 1;
      assert rest[j..j + |t| + 1] == s[i..i + |t| + 1];
      assert OccursAt(rest, t + "\n", j);
    }
  }

  lemma OneLineHoldsNoNeedle(l: string, t: string)
    requires '\n' !in l
    ensures !Contains(l, t + "\n")
  {
    assert (t + "\n")[|t|] == '\n';
    forall i ensures !OccursAt(l, t + "\n", i) {
      if OccursAt(l, t + "\n", i) { NeedleReads(l, t + "\n", i); }
    }
  }

  /** A needle that ends with a newline is found exactly when some line but the last ends with it. */
  lemma {:induction false} NeedleEndsALine(lines: seq<string>, t: string)
    requires AreLines(lines) && '\n' !in t
    ensures Contains(Join(lines), t + "\n") <==> EndsALine(lines, t)
    decreases |lines|
  {
    if |lines| == 1 {
      OneLineHoldsNoNeedle(lines[0], t);
    } else {
      var rest := lines[1..];
      assert forall l :: l in rest ==> l in lines;
      NeedleEndsALine(rest, t);
      NeedleAfterFirst(lines, t);
      hide Join, Contains, EndsWith;
      assert forall k :: 0 <= k < |rest| ==> rest[k] == lines[k + 1];
      if EndsALine(rest, t) {
        var k :| 0 <= k < |rest| - 1 && EndsWith(rest[k], t);
        assert EndsWith(lines[k + 1], t);
      }
      if EndsALine(lines, t) && !EndsWith(lines[0], t) {
        var k :| 0 <= k < |lines| - 1 && EndsWith(lines[k], t);
        assert EndsWith(rest[k - 1], t);
      }
    }
  }

  lemma NeedleAfterFirst(lines: seq<string>, t: string)
    requires AreLines(lines) && |lines| > 1 && '\n' !in t
    ensures Contains(Join(lines), t + "\n") <==> EndsWith(lines[0], t) || Contains(Join(lines[1..]), t + "\n")
  {
    var l, rest := lines[0], Join(lines[1..]);
    assert Join(lines) == l + "\n" + rest && l in lines;
    hide Join, AreLines;
    if Contains(l + "\n" + rest, t + "\n") { NeedleInOneOf(l, rest, t); }
    hide Contains;
    if Contains(rest, t + "\n") { ContainsAfter(l + "\n", rest, t + "\n"); }
    if EndsWith(l, t) { LineEndHoldsNeedle(l, rest, t); }
  }

  lemma NeedleInOneOf(l: string, rest: string, t: string)
    requires Contains(l + "\n" + rest, t + "\n") && '\n' !in l && '\n' !in t
    ensures EndsWith(l, t) || Contains(rest, t + "\n")
  {
    var s := l + "\n" + rest;
    var i :| 0 <= i <= |s| && OccursAt(s, t + "\n", i);
    hide OccursAt, Contains, EndsWith;
    OccursAfterLine(l, rest, t, i);
  }

  lemma LineEndHoldsNeedle(l: string, rest: string, t: string)
    requires EndsWith(l, t)
    ensures Contains(l + "\n" + rest, t + "\n")
  {
    var a := l[..|l| - |t|];
    assert l == a + t;
    hide Contains;
    ContainsMiddle(a, t + "\n", rest);
    assert a + (t + "\n") + rest == l + "\n" + rest;
  }

  /** A needle without a newline is found exactly when it is in some line. */
  lemma {:induction false} NeedleInALine(lines: seq<string>, t: string)
    requires lines != [] && t != [] && '\n' !in t
    ensures Contains(Join(lines), t) <==> InALine(lines, t)
    decreases |lines|
  {
    if |lines| > 1 {
      var rest := lines[1..];
      NeedleInALine(rest, t);
      NeedleInFirstOrRest(lines[0], Join(rest), t);
      assert Join(lines) == lines[0] + "\n" + Join(rest);
      hide Join, Contains;
      assert forall k :: 0 <= k < |rest| ==> rest[k] == lines[k + 1];
      if InALine(rest, t) {
        var k :| 0 <= k < |rest| && Contains(rest[k], t);
        assert Contains(lines[k + 1], t);
      }
      if InALine(lines, t) && !Contains(lines[0], t) {
        var k :| 0 <= k < |lines| && Contains(lines[k], t);
        assert Contains(rest[k - 1], t);
      }
    }
  }

  lemma NeedleInFirstOrRest(l: string, rest: string, t: string)
    requires t != [] && '\n' !in t
    ensures Contains(l + "\n" + rest, t) <==> Contains(l, t) || Contains(rest, t)
  {
    var s := l + "\n" + rest;
    if Contains(s, t) {
      var i :| 0 <= i <= |s| && OccursAt(s, t, i);
      NeedleReads(s, t, i);
      assert forall q :: 0 <= q < |t| ==> t[q] != '\n';
      assert s[|l|] == '\n';
      if i + |t| <= |l| {
        assert l[i..i + |t|] == s[i..i + |t|];
        assert OccursAt(l, t, i);
      } else {
        assert i > |l|;
        var j := i - |l| - 1;
        assert rest[j..j + |t|] == s[i..i + |t|];
        assert OccursAt(rest, t, j);
      }
    }
    if Contains(rest, t) { ContainsAfter(l + "\n", rest, t); }
    if Contains(l, t) {
      var i :| 0 <= i <= |l| && OccursAt(l, t, i);
      assert s[i..i + |t|] == l[i..i + |t|];
      assert OccursAt(s, t, i);
    }
  }
}
