/** Strings as the standard library treats them: lines, trimming, byte order, decimals. */
module Text {
  import opened Options

  // ----- Lines -----

  function Split(s: string): (r: seq<string>)
    ensures |r| > 0
  {
    if s == "" then [""]
    else
      var rest := Split(s[1..]);
      if s[0] == '\n' then [""] + rest else [[s[0]] + rest[0]] + rest[1..]
  }

  function Join(ls: seq<string>): string {
    if ls == [] then "" else if |ls| == 1 then ls[0] else ls[0] + "\n" + Join(ls[1..])
  }

  ghost predicate Clean(ls: seq<string>) {
    forall i :: 0 <= i < |ls| ==> '\n' !in ls[i]
  }

  lemma {:induction false} JoinOfSplit(s: string)
    ensures Join(Split(s)) == s && Clean(Split(s))
  {
    if s != "" {
      JoinOfSplit(s[1..]);
      var rest := Split(s[1..]);
      if s[0] == '\n' {
        assert ([""] + rest)[1..] == rest;
      } else {
        var r := [[s[0]] + rest[0]] + rest[1..];
        assert r[1..] == rest[1..];
        assert Join(r) == [s[0]] + Join(rest);
      }
    }
  }

  lemma {:induction false} SplitAcross(a: string, b: string)
    ensures Split(a + "\n" + b) == Split(a) + Split(b)
  {
    var s := a + "\n" + b;
    if a == "" {
      assert s[1..] == b;
    } else {
      assert s[1..] == a[1..] + "\n" + b && s[0] == a[0];
      SplitAcross(a[1..], b);
    }
  }

  lemma {:induction false} SplitOfLine(a: string)
    requires '\n' !in a
    ensures Split(a) == [a]
  {
    if a != "" {
      SplitOfLine(a[1..]);
      assert [a[0]] + a[1..] == a;
    }
  }

  lemma {:induction false} SplitOfJoin(ls: seq<string>)
    requires ls != [] && Clean(ls)
    ensures Split(Join(ls)) == ls
  {
    SplitOfLine(ls[0]);
    if |ls| > 1 {
      SplitOfJoin(ls[1..]);
      SplitAcross(ls[0], Join(ls[1..]));
    }
  }

  lemma {:induction false} JoinAppend(ls: seq<string>, more: seq<string>)
    requires ls != [] && more != []
    ensures Join(ls + more) == Join(ls) + "\n" + Join(more)
  {
    if |ls| == 1 {
      assert (ls + more)[1..] == more;
    } else {
      assert (ls + more)[1..] == ls[1..] + more;
      JoinAppend(ls[1..], more);
    }
  }

  lemma Reassociate<T>(a: seq<T>, b: seq<T>, c: seq<T>)
    ensures a + (b + c) == a + b + c
  {
  }

  function Flat(groups: seq<seq<string>>): seq<string> {
    if groups == [] then [] else groups[0] + Flat(groups[1..])
  }

  lemma {:induction false} FlatAppend(groups: seq<seq<string>>, g: seq<string>)
    ensures Flat(groups + [g]) == Flat(groups) + g
  {
    if groups != [] {
      assert (groups + [g])[1..] == groups[1..] + [g];
      FlatAppend(groups[1..], g);
      Reassociate(groups[0], Flat(groups[1..]), g);
    }
  }

  lemma SplitAppend(text: string, ls: seq<string>)
    requires ls != [] && Clean(ls)
    ensures Split(text + ("\n" + Join(ls))) == Split(text) + ls
  {
    assert text + ("\n" + Join(ls)) == text + "\n" + Join(ls);
    SplitAcross(text, Join(ls));
    SplitOfJoin(ls);
  }

  /** A heading, then groups of lines. */
  function Listing(h: string, groups: seq<seq<string>>): string {
    if groups == [] then h else Listing(h, groups[..|groups| - 1]) + ("\n" + Join(groups[|groups| - 1]))
  }

  lemma {:induction false} ListingLines(h: string, groups: seq<seq<string>>)
    requires '\n' !in h && forall i :: 0 <= i < |groups| ==> groups[i] != [] && Clean(groups[i])
    ensures Split(Listing(h, groups)) == [h] + Flat(groups)
  {
    if groups == [] {
      SplitOfLine(h);
    } else {
      var most, last := groups[..|groups| - 1], groups[|groups| - 1];
      ListingLines(h, most);
      SplitAppend(Listing(h, most), last);
      assert groups == most + [last];
      FlatAppend(most, last);
      Reassociate([h], Flat(most), last);
    }
  }

  /** Whatever is in the groups, the heading is the first line, and the last line is that of the last group. */
  lemma {:induction false} ListingEnds(h: string, groups: seq<seq<string>>)
    requires '\n' !in h && forall i :: 0 <= i < |groups| ==> groups[i] != []
    ensures var ls := Split(Listing(h, groups));
            && ls[0] == h
            && (groups == [] ==> ls == [h])
            && (groups != [] ==> ls[|ls| - 1] == Split(Join(groups[|groups| - 1]))[|Split(Join(groups[|groups| - 1]))| - 1])
  {
    if groups == [] {
      SplitOfLine(h);
    } else {
      var most, last := groups[..|groups| - 1], groups[|groups| - 1];
      ListingEnds(h, most);
      var text := Listing(h, most);
      assert text + ("\n" + Join(last)) == text + "\n" + Join(last);
      SplitAcross(text, Join(last));
    }
  }

  lemma {:induction false} JoinEnds(ls: seq<string>)
    requires ls != [] && '\n' !in ls[|ls| - 1]
    ensures var r := Split(Join(ls)); r[|r| - 1] == ls[|ls| - 1]
  {
    if |ls| == 1 {
      SplitOfLine(ls[0]);
    } else {
      assert ls[1..][|ls| - 2] == ls[|ls| - 1];
      JoinEnds(ls[1..]);
      SplitAcross(ls[0], Join(ls[1..]));
    }
  }

  ghost predicate EndsWell(g: seq<string>) {
    g != [] && '\n' !in g[|g| - 1] && g[|g| - 1] != ""
  }

  lemma ListingEndsWell(h: string, groups: seq<seq<string>>)
    requires '\n' !in h && h != "" && forall i :: 0 <= i < |groups| ==> EndsWell(groups[i])
    ensures var ls := Split(Listing(h, groups)); ls[0] == h && ls[|ls| - 1] != ""
  {
    ListingEnds(h, groups);
    if groups != [] { JoinEnds(groups[|groups| - 1]); }
  }

  lemma ListingStep(h: string, groups: seq<seq<string>>, i: nat)
    requires i < |groups|
    ensures Listing(h, groups[..i + 1]) == Listing(h, groups[..i]) + ("\n" + Join(groups[i]))
  {
    assert groups[..i + 1][..i] == groups[..i];
  }

  function TrimRight(s: string, cut: set<char>): string {
    if s != "" && s[|s| - 1] in cut then TrimRight(s[..|s| - 1], cut) else s
  }

  /** White space as Unicode defines it. */
  predicate IsSpace(c: char) {
    var n := c as int;
    0x9 <= n <= 0xD || n == 0x20 || n == 0x85 || n == 0xA0 || n == 0x1680 || 0x2000 <= n <= 0x200A
    || n == 0x2028 || n == 0x2029 || n == 0x202F || n == 0x205F || n == 0x3000
  }

  /** Nothing is left when the space around is trimmed. */
  predicate Blank(s: string) { forall c :: c in s ==> IsSpace(c) }

  predicate HasPrefix(s: string, p: string) { |s| >= |p| && s[..|p|] == p }

  // ----- Order -----

  predicate Leq(a: string, b: string) {
    a == "" || (b != "" && (a[0] < b[0] || (a[0] == b[0] && Leq(a[1..], b[1..]))))
  }

  lemma {:induction false} LeqIsTotal(a: string, b: string)
    ensures Leq(a, b) || Leq(b, a)
    ensures Leq(a, b) && Leq(b, a) ==> a == b
  {
    if a != "" && b != "" { LeqIsTotal(a[1..], b[1..]); }
  }

  lemma {:induction false} LeqTrans(a: string, b: string, c: string)
    requires Leq(a, b) && Leq(b, c)
    ensures Leq(a, c)
  {
    if a != "" && a[0] == b[0] == c[0] { LeqTrans(a[1..], b[1..], c[1..]); }
  }

  predicate IsLeast(x: string, keys: set<string>) {
    x in keys && forall y :: y in keys ==> Leq(x, y)
  }

  lemma {:induction false} LeastExists(keys: set<string>)
    requires keys != {}
    ensures exists x :: IsLeast(x, keys)
  {
    var k :| k in keys;
    LeqIsTotal(k, k);
    if keys == {k} {
      assert IsLeast(k, keys);
    } else {
      LeastExists(keys - {k});
      var x :| IsLeast(x, keys - {k});
      LeqIsTotal(x, k);
      if Leq(x, k) {
        assert IsLeast(x, keys);
      } else {
        forall y | y in keys ensures Leq(k, y) {
          if y != k { LeqTrans(k, x, y); }
        }
        assert IsLeast(k, keys);
      }
    }
  }

  lemma LeastIsUnique(keys: set<string>)
    ensures forall x, y :: IsLeast(x, keys) && IsLeast(y, keys) ==> x == y
  {
    forall x, y | IsLeast(x, keys) && IsLeast(y, keys) ensures x == y {
      LeqIsTotal(x, y);
    }
  }

  predicate Ascending(ks: seq<string>) {
    forall i, j :: 0 <= i < j < |ks| ==> Leq(ks[i], ks[j]) && ks[i] != ks[j]
  }

  /** The keys in byte order, each once. */
  function Sorted(keys: set<string>): (r: seq<string>)
    ensures Ascending(r) && forall k :: k in r <==> k in keys
  {
    if keys == {} then []
    else
      LeastExists(keys);
      LeastIsUnique(keys);
      var x :| x in keys && IsLeast(x, keys);
      [x] + Sorted(keys - {x})
  }

  // ----- Decimals -----

  function Digit(d: nat): (c: char)
    requires d < 10
    ensures '0' <= c <= '9' && c as int - '0' as int == d
  {
    ('0' as int + d) as char
  }

  function Digits(n: nat): (r: string)
    ensures r != "" && forall i :: 0 <= i < |r| ==> '0' <= r[i] <= '9'
  {
    (if n < 10 then "" else Digits(n / 10)) + [Digit(n % 10)]
  }

  function Signed(negative: bool, digits: string): string { if negative then "-" + digits else digits }

  function Decimal(n: int): string { Signed(n < 0, Digits(if n < 0 then -n else n)) }

  function ReadDigits(s: string): Option<int> {
    if s == "" then Some(0)
    else
      var c := s[|s| - 1] as int - '0' as int;
      var rest := ReadDigits(s[..|s| - 1]);
      if rest.None? || !(0 <= c < 10) then None else Some(10 * rest.value + c)
  }

  function Negated(n: Option<int>): Option<int> { if n.None? then None else Some(-n.value) }

  function ReadDecimal(s: string): Option<int> {
    if s != "" && s[0] == '-' then Negated(ReadDigits(s[1..])) else ReadDigits(s)
  }

  lemma ReadOneMore(s: string, d: nat)
    requires d < 10 && ReadDigits(s).Some?
    ensures ReadDigits(s + [Digit(d)]) == Some(10 * ReadDigits(s).value + d)
  {
    assert (s + [Digit(d)])[..|s|] == s;
  }

  lemma {:induction false} DigitsRoundTrip(n: nat)
    ensures ReadDigits(Digits(n)) == Some(n)
  {
    if n < 10 {
      ReadOneMore("", n);
    } else {
      DigitsRoundTrip(n / 10);
      ReadOneMore(Digits(n / 10), n % 10);
    }
  }

  lemma SignedReadsBack(negative: bool, s: string)
    requires s != "" && s[0] != '-'
    ensures ReadDecimal(Signed(negative, s)) == if negative then Negated(ReadDigits(s)) else ReadDigits(s)
  {
    assert ("-" + s)[1..] == s;
  }

  lemma DigitsBegin(n: nat)
    ensures Digits(n)[0] != '-'
  {
    assert '0' <= Digits(n)[0];
  }

  lemma DecimalRoundTrip(n: int)
    ensures ReadDecimal(Decimal(n)) == Some(n)
  {
    var k := if n < 0 then -n else n;
    DigitsBegin(k);
    SignedReadsBack(n < 0, Digits(k));
    DigitsRoundTrip(k);
  }

  lemma DecimalIsOneLine(n: int)
    ensures Decimal(n) != "" && '\n' !in Decimal(n)
  {
    var digits := Digits(if n < 0 then -n else n);
    assert forall i :: 0 <= i < |digits| ==> '0' <= digits[i];
  }
}
