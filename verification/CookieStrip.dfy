/**
 The two ordered search-and-replace passes that take one cookie out of a Cookie header:
 the first removes every match of `(?:^|;\s*)NAME=[^;]*`, the second one of `^;\s*`.
 The passes are modelled as a leftmost-first matcher runs them and proved equal, on every
 header, to splitting at the semicolons and dropping pieces.
 */
module CookieStrip {
  import opened Options
  import Text

  predicate IsSpace(c: char) {
    c == '\t' || c == '\n' || c == '\U{0C}' || c == '\r' || c == ' '
  }

  /** How far `[^;]*` reaches. */
  function ToSemicolon(s: string): (n: nat)
    ensures n <= |s| && ';' !in s[..n] && (n < |s| ==> s[n] == ';')
  {
    if s == "" || s[0] == ';' then 0 else
    var n := ToSemicolon(s[1..]);
    assert s[..1 + n] == [s[0]] + s[1..][..n];
    1 + n
  }

  /** `NAME=[^;]*`: the length of its match at the start of `s`. */
  function MatchPair(s: string, name: string): Option<nat> {
    if Text.HasPrefix(s, name + "=") then Some(|name| + 1 + ToSemicolon(s[|name| + 1..])) else None
  }

  /** `\s*NAME=[^;]*`, taking as much space as it can and giving it back if need be. */
  function MatchSpaced(s: string, name: string): Option<nat> {
    if s != "" && IsSpace(s[0]) && MatchSpaced(s[1..], name).Some?
    then Some(1 + MatchSpaced(s[1..], name).value)
    else MatchPair(s, name)
  }

  /** The first pattern at one position of the header, which only its first position matches with `^`. */
  function MatchFirst(s: string, atStart: bool, name: string): Option<nat> {
    if atStart && MatchPair(s, name).Some? then MatchPair(s, name)
    else if s != "" && s[0] == ';' && MatchSpaced(s[1..], name).Some? then Some(1 + MatchSpaced(s[1..], name).value)
    else None
  }

  lemma {:induction false} MatchFits(s: string, name: string)
    ensures MatchPair(s, name).Some? ==> 0 < MatchPair(s, name).value <= |s|
    ensures MatchSpaced(s, name).Some? ==> 0 < MatchSpaced(s, name).value <= |s|
  {
    if s != "" { MatchFits(s[1..], name); }
  }

  /** Replace all matches of the first pattern, left to right, by nothing. */
  function FirstPass(s: string, atStart: bool, name: string): string
    decreases |s|
  {
    MatchFits(s, name);
    if s != "" then MatchFits(s[1..], name);
      match MatchFirst(s, atStart, name)
      case Some(n) => FirstPass(s[n..], false, name)
      case None => [s[0]] + FirstPass(s[1..], false, name)
    else ""
  }

  function TrimLeft(s: string): string {
    if s != "" && IsSpace(s[0]) then TrimLeft(s[1..]) else s
  }

  function SecondPass(s: string): string {
    if s != "" && s[0] == ';' then TrimLeft(s[1..]) else s
  }

  function Strip(header: string, name: string): string {
    SecondPass(FirstPass(header, true, name))
  }

  // ----- The header as pieces between semicolons -----

  function Tail(pieces: seq<string>): string {
    if pieces == [] then "" else ";" + pieces[0] + Tail(pieces[1..])
  }

  ghost predicate NoSemicolons(pieces: seq<string>) {
    forall i :: 0 <= i < |pieces| ==> ';' !in pieces[i]
  }

  predicate Holds(piece: string, name: string) {
    Text.HasPrefix(TrimLeft(piece), name + "=")
  }

  function Without(pieces: seq<string>, name: string): seq<string> {
    if pieces == [] then []
    else (if Holds(pieces[0], name) then [] else [pieces[0]]) + Without(pieces[1..], name)
  }

  /** A stripped name that a pattern cannot confuse with separators. */
  ghost predicate NameOk(name: string) {
    ';' !in name && (name != "" ==> !IsSpace(name[0]))
  }

  /** Every header is a first piece and a tail of pieces, none with a semicolon in it. */
  lemma {:induction false} Pieces(s: string) returns (first: string, rest: seq<string>)
    ensures s == first + Tail(rest) && ';' !in first && NoSemicolons(rest)
    decreases |s|
  {
    var n := ToSemicolon(s);
    first := s[..n];
    if n == |s| {
      rest := [];
      assert s == first + "";
    } else {
      var p, ps := Pieces(s[n + 1..]);
      rest := [p] + ps;
      assert rest[1..] == ps;
      assert s == s[..n] + (";" + s[n + 1..]);
      assert ";" + p + Tail(ps) == ";" + (p + Tail(ps));
    }
  }

  lemma TailShape(pieces: seq<string>)
    ensures Tail(pieces) == "" || Tail(pieces)[0] == ';'
  {
  }

  /** What follows a piece does not decide whether the piece starts with a text that has no semicolon. */
  lemma PrefixWithin(p: string, t: string, prefix: string)
    requires ';' !in prefix && (t == "" || t[0] == ';')
    ensures Text.HasPrefix(p + t, prefix) <==> Text.HasPrefix(p, prefix)
  {
    if |p| >= |prefix| {
      assert (p + t)[..|prefix|] == p[..|prefix|];
    } else {
      assert |p + t| >= |prefix| ==> (p + t)[..|prefix|][|p|] == ';';
    }
  }

  lemma {:induction false} ReachesTheEnd(p: string, t: string)
    requires ';' !in p && (t == "" || t[0] == ';')
    ensures ToSemicolon(p + t) == |p|
  {
    if p == "" {
      assert p + t == t;
    } else {
      assert (p + t)[1..] == p[1..] + t;
      ReachesTheEnd(p[1..], t);
    }
  }

  lemma PairWithin(p: string, t: string, name: string)
    requires NameOk(name) && ';' !in p && (t == "" || t[0] == ';')
    ensures MatchPair(p + t, name) == if Text.HasPrefix(p, name + "=") then Some(|p|) else None
  {
    PrefixWithin(p, t, name + "=");
    if Text.HasPrefix(p, name + "=") {
      var k := |name| + 1;
      assert (p + t)[k..] == p[k..] + t;
      ReachesTheEnd(p[k..], t);
    }
  }

  lemma {:induction false} SpacedWithin(p: string, t: string, name: string)
    requires NameOk(name) && ';' !in p && (t == "" || t[0] == ';')
    ensures MatchSpaced(p + t, name) == if Holds(p, name) then Some(|p|) else None
  {
    PairWithin(p, t, name);
    if p == "" {
      assert p + t == t;
      assert t != "" ==> !IsSpace(t[0]);
    } else if IsSpace(p[0]) {
      assert (p + t)[1..] == p[1..] + t;
      SpacedWithin(p[1..], t, name);
      assert p[0] != (name + "=")[0];
    }
  }

  /** Away from the start, characters up to the next semicolon are copied. */
  lemma {:induction false} CopiesPiece(p: string, t: string, name: string)
    requires ';' !in p
    ensures FirstPass(p + t, false, name) == p + FirstPass(t, false, name)
    decreases |p|
  {
    if p == "" {
      assert p + t == t;
    } else {
      assert (p + t)[1..] == p[1..] + t && (p + t)[0] == p[0];
      CopiesPiece(p[1..], t, name);
      assert p == [p[0]] + p[1..];
    }
  }

  lemma FirstPassOnPiece(s: string, p: string, t: string, name: string)
    requires NameOk(name) && ';' !in p && (t == "" || t[0] == ';')
    requires s != "" && s[0] == ';' && s[1..] == p + t
    ensures FirstPass(s, false, name) ==
            if Holds(p, name) then FirstPass(t, false, name) else [';'] + FirstPass(p + t, false, name)
  {
    MatchesPiece(s, p, t, name);
    if Holds(p, name) {
      AfterPiece(s, p, t);
      SkipsMatch(s, name);
    } else {
      CopiesOne(s, name);
    }
  }

  lemma MatchesPiece(s: string, p: string, t: string, name: string)
    requires NameOk(name) && ';' !in p && (t == "" || t[0] == ';')
    requires s != "" && s[0] == ';' && s[1..] == p + t
    ensures MatchFirst(s, false, name) == if Holds(p, name) then Some(1 + |p|) else None
  {
    SpacedWithin(p, t, name);
  }

  lemma AfterPiece(s: string, p: string, t: string)
    requires s != "" && s[1..] == p + t
    ensures |s| >= 1 + |p| && s[1 + |p|..] == t
  {
    assert s[1 + |p|..] == s[1..][|p|..];
  }

  lemma SkipsMatch(s: string, name: string)
    requires s != "" && MatchFirst(s, false, name).Some?
    ensures MatchFirst(s, false, name).value <= |s|
    ensures FirstPass(s, false, name) == FirstPass(s[MatchFirst(s, false, name).value..], false, name)
  {
    MatchFits(s[1..], name);
  }

  lemma CopiesOne(s: string, name: string)
    requires s != "" && MatchFirst(s, false, name).None?
    ensures FirstPass(s, false, name) == [s[0]] + FirstPass(s[1..], false, name)
  {
  }

  /** On a tail of pieces the first pass drops exactly the pieces that hold the cookie. */
  lemma {:induction false} FirstPassOnTail(pieces: seq<string>, name: string)
    requires NameOk(name) && NoSemicolons(pieces)
    ensures FirstPass(Tail(pieces), false, name) == Tail(Without(pieces, name))
  {
    if pieces != [] {
      var p, t := pieces[0], Tail(pieces[1..]);
      TailShape(pieces[1..]);
      assert Tail(pieces)[1..] == p + t;
      FirstPassOnPiece(Tail(pieces), p, t, name);
      CopiesPiece(p, t, name);
      FirstPassOnTail(pieces[1..], name);
      TailOfWithout(pieces, name);
      Regroup(p, FirstPass(t, false, name));
    }
  }

  lemma Regroup(p: string, t: string)
    ensures [';'] + (p + t) == ";" + p + t
  {
  }

  lemma TailOfWithout(pieces: seq<string>, name: string)
    requires pieces != []
    ensures Tail(Without(pieces, name)) ==
            (if Holds(pieces[0], name) then "" else ";" + pieces[0]) + Tail(Without(pieces[1..], name))
  {
    var w := Without(pieces[1..], name);
    if Holds(pieces[0], name) {
      assert [] + w == w;
    } else {
      assert ([pieces[0]] + w)[1..] == w;
    }
  }

  /** The same thing said without patterns: the pieces that stay, the first of them without its separator. */
  function Reference(first: string, rest: seq<string>, name: string): string {
    var kept := Without(rest, name);
    if first != "" && !Text.HasPrefix(first, name + "=") then first + Tail(kept)
    else if kept == [] then ""
    else TrimLeft(kept[0]) + Tail(kept[1..])
  }

  lemma TrimsNothing(t: string)
    requires t == "" || t[0] == ';'
    ensures TrimLeft(t) == t
  {
    assert !IsSpace(';');
  }

  lemma {:induction false} TrimsOnlyThePiece(p: string, t: string)
    requires ';' !in p && (t == "" || t[0] == ';')
    ensures TrimLeft(p + t) == TrimLeft(p) + t
  {
    if p == "" {
      TrimsNothing(t);
      assert p + t == t && TrimLeft(p) + t == t;
    } else {
      assert (p + t)[1..] == p[1..] + t;
      TrimsOnlyThePiece(p[1..], t);
    }
  }

  lemma {:induction false} WithoutKeepsClean(pieces: seq<string>, name: string)
    requires NoSemicolons(pieces)
    ensures NoSemicolons(Without(pieces, name))
  {
    if pieces != [] { WithoutKeepsClean(pieces[1..], name); }
  }

  lemma FirstPassOnHeader(first: string, rest: seq<string>, name: string)
    requires NameOk(name) && ';' !in first && NoSemicolons(rest)
    ensures FirstPass(first + Tail(rest), true, name) ==
            (if Text.HasPrefix(first, name + "=") then "" else first) + Tail(Without(rest, name))
  {
    var t := Tail(rest);
    var s := first + t;
    TailShape(rest);
    PairWithin(first, t, name);
    FirstPassOnTail(rest, name);
    MatchFits(s, name);
    if Text.HasPrefix(first, name + "=") {
      assert s[|first|..] == t;
    } else {
      SameOffTheStart(s, name);
      CopiesPiece(first, t, name);
    }
  }

  lemma SameOffTheStart(s: string, name: string)
    requires MatchPair(s, name).None?
    ensures FirstPass(s, true, name) == FirstPass(s, false, name)
  {
  }

  /** The two passes, on every header and every sane name, equal the pattern-free reference. */
  lemma StripIsReference(first: string, rest: seq<string>, name: string)
    requires NameOk(name) && ';' !in first && NoSemicolons(rest)
    ensures Strip(first + Tail(rest), name) == Reference(first, rest, name)
  {
    FirstPassOnHeader(first, rest, name);
    WithoutKeepsClean(rest, name);
    var kept := Without(rest, name);
    if first != "" && !Text.HasPrefix(first, name + "=") {
      assert (first + Tail(kept))[0] == first[0];
    } else {
      assert "" + Tail(kept) == Tail(kept);
      SecondPassOnTail(kept);
    }
  }

  /** Every header decomposes, so the reference describes the passes on all of them. */
  lemma StripOnEveryHeader(header: string, name: string) returns (first: string, rest: seq<string>)
    requires NameOk(name)
    ensures header == first + Tail(rest) && ';' !in first && NoSemicolons(rest)
    ensures Strip(header, name) == Reference(first, rest, name)
  {
    first, rest := Pieces(header);
    StripIsReference(first, rest, name);
  }

  lemma SecondPassOnPiece(p: string, t: string)
    requires ';' !in p && (t == "" || t[0] == ';')
    ensures SecondPass(";" + p + t) == TrimLeft(p) + t
  {
    assert (";" + p + t)[1..] == p + t;
    TrimsOnlyThePiece(p, t);
  }

  lemma SecondPassOnTail(pieces: seq<string>)
    requires NoSemicolons(pieces)
    ensures SecondPass(Tail(pieces)) == if pieces == [] then "" else TrimLeft(pieces[0]) + Tail(pieces[1..])
  {
    if pieces != [] {
      TailShape(pieces[1..]);
      SecondPassOnPiece(pieces[0], Tail(pieces[1..]));
    }
  }

  // ----- What is left of the stripped name -----

  function PiecesOf(s: string): (r: seq<string>)
    ensures |r| > 0
    decreases |s|
  {
    var n := ToSemicolon(s);
    if n == |s| then [s] else [s[..n]] + PiecesOf(s[n + 1..])
  }

  lemma PiecesSplit(first: string, more: string)
    requires ';' !in first
    ensures PiecesOf(first + ";" + more) == [first] + PiecesOf(more)
  {
    var s := first + ";" + more;
    assert s == first + (";" + more);
    ReachesTheEnd(first, ";" + more);
    assert s[..|first|] == first && s[|first| + 1..] == more;
  }

  lemma {:induction false} PiecesOfTail(first: string, rest: seq<string>)
    requires ';' !in first && NoSemicolons(rest)
    ensures PiecesOf(first + Tail(rest)) == [first] + rest
    decreases rest
  {
    if rest == [] {
      ReachesTheEnd(first, "");
      assert first + Tail(rest) == first;
    } else {
      var more := rest[0] + Tail(rest[1..]);
      PiecesOfTail(rest[0], rest[1..]);
      PiecesSplit(first, more);
      RegroupTail(first, rest[0], Tail(rest[1..]));
      assert [rest[0]] + rest[1..] == rest;
    }
  }

  lemma RegroupTail(first: string, p: string, t: string)
    ensures first + (";" + p + t) == first + ";" + (p + t)
  {
  }

  /** Does a reader of this header that splits it at the semicolons find the name? */
  ghost predicate Carries(header: string, name: string) {
    exists i :: 0 <= i < |PiecesOf(header)| && Holds(PiecesOf(header)[i], name)
  }

  /** The header opens with white space before the name. */
  predicate OpensSpaced(header: string, name: string) {
    Holds(PiecesOf(header)[0], name) && !Text.HasPrefix(PiecesOf(header)[0], name + "=")
  }

  lemma {:induction false} WithoutHoldsNone(pieces: seq<string>, name: string)
    ensures forall i :: 0 <= i < |Without(pieces, name)| ==> !Holds(Without(pieces, name)[i], name)
  {
    if pieces != [] { WithoutHoldsNone(pieces[1..], name); }
  }

  lemma {:induction false} TrimmedTwice(s: string)
    ensures TrimLeft(TrimLeft(s)) == TrimLeft(s) && (';' !in s ==> ';' !in TrimLeft(s))
  {
    if s != "" { TrimmedTwice(s[1..]); }
  }

  /** The pieces of the reference: none of them holds the name, unless the first one is the header's own and opens with space. */
  lemma ReferencePieces(first: string, rest: seq<string>, name: string) returns (left: string, more: seq<string>)
    requires ';' !in first && NoSemicolons(rest)
    ensures Reference(first, rest, name) == left + Tail(more) && ';' !in left && NoSemicolons(more)
    ensures forall i :: 0 <= i < |more| ==> !Holds(more[i], name)
    ensures Holds(left, name) <==> Holds(first, name) && !Text.HasPrefix(first, name + "=")
  {
    var kept := Without(rest, name);
    WithoutKeepsClean(rest, name);
    WithoutHoldsNone(rest, name);
    if first != "" && !Text.HasPrefix(first, name + "=") {
      left, more := first, kept;
    } else if kept == [] {
      left, more := "", [];
    } else {
      left, more := TrimLeft(kept[0]), kept[1..];
      TrimmedTwice(kept[0]);
    }
  }

  lemma OnlyTheFirstHolds(result: string, left: string, more: seq<string>, name: string)
    requires PiecesOf(result) == [left] + more && forall i :: 0 <= i < |more| ==> !Holds(more[i], name)
    ensures forall i :: 1 <= i < |PiecesOf(result)| ==> !Holds(PiecesOf(result)[i], name)
    ensures Carries(result, name) <==> Holds(left, name)
  {
    var pieces := PiecesOf(result);
    assert pieces[0] == left && forall i :: 1 <= i < |pieces| ==> pieces[i] == more[i - 1];
  }

  /** For every header: the strip leaves no piece that holds the name, except a first one that opens with white space before it. */
  lemma StrippedNameIsGone(header: string, name: string)
    requires NameOk(name)
    ensures forall i :: 1 <= i < |PiecesOf(Strip(header, name))| ==> !Holds(PiecesOf(Strip(header, name))[i], name)
    ensures Carries(Strip(header, name), name) <==> OpensSpaced(header, name)
  {
    var first, rest := StripOnEveryHeader(header, name);
    PiecesOfTail(first, rest);
    var left, more := ReferencePieces(first, rest, name);
    PiecesOfTail(left, more);
    OnlyTheFirstHolds(left + Tail(more), left, more, name);
  }

  // ----- Cookie-strings of section 4.2.1 of RFC 6265 -----

  datatype Cookie = Cookie(name: string, value: string)

  /** What the proof uses of the RFC's grammar: tokens and cookie-octets contain none of these. */
  ghost predicate CookieOk(c: Cookie) {
    && c.name != "" && ';' !in c.name && '=' !in c.name && !IsSpace(c.name[0])
    && ';' !in c.value
  }

  function Pair(c: Cookie): string { c.name + "=" + c.value }

  /** cookie-string = cookie-pair *( ";" SP cookie-pair ) */
  function Render(cs: seq<Cookie>): string {
    if cs == [] then "" else Pair(cs[0]) + Tail(Spaced(cs[1..]))
  }

  function Spaced(cs: seq<Cookie>): seq<string> {
    if cs == [] then [] else [" " + Pair(cs[0])] + Spaced(cs[1..])
  }

  function Others(cs: seq<Cookie>, name: string): seq<Cookie> {
    if cs == [] then [] else (if cs[0].name == name then [] else [cs[0]]) + Others(cs[1..], name)
  }

  lemma PairStarts(c: Cookie, name: string)
    requires CookieOk(c) && '=' !in name
    ensures Text.HasPrefix(Pair(c), name + "=") <==> c.name == name
  {
    assert Pair(c)[..|c.name| + 1] == c.name + "=";
    if Text.HasPrefix(Pair(c), name + "=") { OneNameBeforeEquals(Pair(c), c.name, name); }
  }

  lemma OneNameBeforeEquals(s: string, a: string, b: string)
    requires '=' !in a && '=' !in b && Text.HasPrefix(s, a + "=") && Text.HasPrefix(s, b + "=")
    ensures a == b
  {
    assert (a + "=")[|a|] == '=' && (b + "=")[|b|] == '=';
    assert s[..|a|] == (a + "=")[..|a|] == a;
    assert s[..|b|] == (b + "=")[..|b|] == b;
  }

  lemma {:induction false} SpacedWithout(cs: seq<Cookie>, name: string)
    requires '=' !in name && forall i :: 0 <= i < |cs| ==> CookieOk(cs[i])
    ensures Without(Spaced(cs), name) == Spaced(Others(cs, name))
    ensures NoSemicolons(Spaced(cs))
  {
    if cs != [] {
      var c, p := cs[0], Pair(cs[0]);
      SpacedWithout(cs[1..], name);
      PairStarts(c, name);
      assert (" " + p)[1..] == p && p[0] == c.name[0];
      assert TrimLeft(p) == p;
      assert TrimLeft(" " + p) == p;
      assert Spaced(cs)[1..] == Spaced(cs[1..]);
      assert ([c] + Others(cs[1..], name))[1..] == Others(cs[1..], name);
      assert [] + Without(Spaced(cs[1..]), name) == Without(Spaced(cs[1..]), name);
      assert [] + Others(cs[1..], name) == Others(cs[1..], name);
    }
  }

  /**
   For every cookie-string, stripping one name leaves exactly the pairs of the other names,
   in order and byte for byte, wherever and however often the name occurs, also where it is
   the end of a longer name or stands inside a value.
   */
  lemma StripRemovesExactlyOneName(cs: seq<Cookie>, name: string)
    requires NameOk(name) && '=' !in name && forall i :: 0 <= i < |cs| ==> CookieOk(cs[i])
    ensures Strip(Render(cs), name) == Render(Others(cs, name))
  {
    if cs == [] {
      assert "" == "" + Tail([]);
      StripIsReference("", [], name);
    } else {
      var first, rest := Pair(cs[0]), Spaced(cs[1..]);
      SpacedWithout(cs[1..], name);
      PairStarts(cs[0], name);
      StripIsReference(first, rest, name);
      var others := Others(cs[1..], name);
      if cs[0].name == name {
        assert Others(cs, name) == [] + others;
        assert [] + others == others;
        if others != [] {
          OthersAreOk(cs[1..], name);
          var p := Pair(others[0]);
          assert (" " + p)[1..] == p && p[0] == others[0].name[0];
          assert TrimLeft(" " + p) == TrimLeft(p) == p;
          assert Spaced(others)[1..] == Spaced(others[1..]);
        }
      } else {
        assert ([cs[0]] + others)[1..] == others;
      }
    }
  }

  lemma {:induction false} OthersAreOk(cs: seq<Cookie>, name: string)
    requires forall i :: 0 <= i < |cs| ==> CookieOk(cs[i])
    ensures forall i :: 0 <= i < |Others(cs, name)| ==> CookieOk(Others(cs, name)[i]) && Others(cs, name)[i].name != name
  {
    if cs != [] { OthersAreOk(cs[1..], name); }
  }
}
