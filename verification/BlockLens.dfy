/**
 Replacing one block of lines in a text: the block begins at the first header line and goes
 on while lines are inside it. What makes a line a header, and what keeps it inside, is left
 open.
 */
module BlockLens {
  import opened Text

  datatype Marks = Marks(header: string -> bool, inside: string -> bool)

  /** An empty line is no header, and does not end a block. */
  ghost predicate Sane(k: Marks) { !k.header("") && k.inside("") }

  /** The first header line, or the number of lines. */
  function Start(k: Marks, ls: seq<string>): (r: nat)
    ensures r <= |ls| && (r < |ls| ==> k.header(ls[r]))
    ensures forall i :: 0 <= i < r ==> !k.header(ls[i])
  {
    if ls == [] || k.header(ls[0]) then 0 else 1 + Start(k, ls[1..])
  }

  /** The first line from `from` on that is not inside, or the number of lines. */
  function End(k: Marks, ls: seq<string>, from: nat): (r: nat)
    requires from <= |ls|
    ensures from <= r <= |ls| && (r < |ls| ==> !k.inside(ls[r]))
    ensures forall i :: from <= i < r ==> k.inside(ls[i])
    decreases |ls| - from
  {
    if from == |ls| || !k.inside(ls[from]) then from else End(k, ls, from + 1)
  }

  lemma StartIs(k: Marks, ls: seq<string>, s: nat)
    requires s <= |ls| && (s < |ls| ==> k.header(ls[s])) && forall i :: 0 <= i < s ==> !k.header(ls[i])
    ensures Start(k, ls) == s
  {
  }

  lemma EndIs(k: Marks, ls: seq<string>, from: nat, e: nat)
    requires from <= e <= |ls| && (e < |ls| ==> !k.inside(ls[e])) && forall i :: from <= i < e ==> k.inside(ls[i])
    ensures End(k, ls, from) == e
  {
  }

  // ----- The edit -----

  /** Without the empty lines at the end, but never without any line. */
  function Chop(ls: seq<string>): (r: seq<string>)
    requires ls != []
    ensures 0 < |r| <= |ls| && r == ls[..|r|]
  {
    if |ls| > 1 && ls[|ls| - 1] == "" then Chop(ls[..|ls| - 1]) else ls
  }

  /** The text ends with a newline exactly when an empty line follows the last one. */
  predicate Closed(ls: seq<string>) { |ls| > 1 && ls[|ls| - 1] == "" }

  function Close(ls: seq<string>): seq<string> { if Closed(ls) then ls else ls + [""] }

  function EditLines(k: Marks, ls: seq<string>, block: seq<string>): seq<string>
    requires ls != []
  {
    var start := Start(k, ls);
    if start == |ls| then Chop(ls) + [""] + block + [""]
    else Close(ls[..start] + block + ls[End(k, ls, start + 1)..])
  }

  /** A block begins with a header and does not end with an empty line. */
  ghost predicate Blocky(k: Marks, block: seq<string>) {
    |block| > 0 && k.header(block[0]) && block[|block| - 1] != ""
  }

  /** Every line after the first keeps the block going when it is looked for again. */
  predicate HoldsTogether(k: Marks, block: seq<string>) {
    forall i :: 1 <= i < |block| ==> k.inside(block[i])
  }

  // ----- The text around the block -----

  function Before(k: Marks, ls: seq<string>): seq<string>
    requires ls != []
  {
    if Start(k, ls) == |ls| then Chop(ls) + [""] else ls[..Start(k, ls)]
  }

  function After(k: Marks, ls: seq<string>): (r: seq<string>)
    ensures r != [] ==> !k.inside(r[0])
  {
    if Start(k, ls) == |ls| then [] else ls[End(k, ls, Start(k, ls) + 1)..]
  }

  /** With the empty last line that stands for the final newline. */
  function Ended(tail: seq<string>): (r: seq<string>)
    ensures r != [] && r[|r| - 1] == ""
  {
    if tail != [] && tail[|tail| - 1] == "" then tail else tail + [""]
  }

  lemma BeforeHasNoHeader(k: Marks, ls: seq<string>)
    requires Sane(k) && ls != []
    ensures forall i :: 0 <= i < |Before(k, ls)| ==> !k.header(Before(k, ls)[i])
  {
  }

  lemma CloseAppends(head: seq<string>, tail: seq<string>)
    requires head != [] && head[|head| - 1] != ""
    ensures Close(head + tail) == head + Ended(tail)
  {
    if tail != [] { assert (head + tail)[|head + tail| - 1] == tail[|tail| - 1]; }
  }

  /** The edit is the text before, the block, and the text after with its final newline. */
  lemma EditIsThreeParts(k: Marks, ls: seq<string>, block: seq<string>)
    requires ls != [] && Blocky(k, block)
    ensures EditLines(k, ls, block) == Before(k, ls) + block + Ended(After(k, ls))
  {
    if Start(k, ls) < |ls| {
      CloseAppends(Before(k, ls) + block, After(k, ls));
    }
  }

  lemma StartIsFoundAgain(k: Marks, ls: seq<string>, block: seq<string>)
    requires Sane(k) && ls != [] && Blocky(k, block)
    ensures Start(k, EditLines(k, ls, block)) == |Before(k, ls)| < |EditLines(k, ls, block)|
    ensures Before(k, EditLines(k, ls, block)) == Before(k, ls)
  {
    EditIsThreeParts(k, ls, block);
    BeforeHasNoHeader(k, ls);
    var b := Before(k, ls);
    var out := b + block + Ended(After(k, ls));
    StartIs(k, out, |b|);
    assert out[..|b|] == b;
  }

  lemma FoundUpTo(k: Marks, out: seq<string>, b: seq<string>, rest: seq<string>, e: nat)
    requires out == b + rest && 1 <= e <= |rest|
    requires forall i :: 1 <= i < e ==> k.inside(rest[i])
    requires e < |rest| ==> !k.inside(rest[e])
    ensures End(k, out, |b| + 1) == |b| + e
  {
    forall i | |b| + 1 <= i < |b| + e ensures k.inside(out[i]) {
      assert out[i] == rest[i - |b|];
    }
    if e < |rest| { assert out[|b| + e] == rest[e]; }
    EndIs(k, out, |b| + 1, |b| + e);
  }

  /** How far the block goes in a text it was put in. */
  function Extent(k: Marks, block: seq<string>, after: seq<string>): nat
    requires block != []
  {
    if !HoldsTogether(k, block) then End(k, block, 1) else if after == [] then |block| + 1 else |block|
  }

  /** How far a block goes that is followed by a text which is not inside. */
  lemma EndIsFoundAgain(k: Marks, block: seq<string>, after: seq<string>) returns (e: nat)
    requires Sane(k) && Blocky(k, block) && (after != [] ==> !k.inside(after[0]))
    ensures var rest := block + Ended(after);
            && 1 <= e <= |rest|
            && (forall i :: 1 <= i < e ==> k.inside(rest[i]))
            && (e < |rest| ==> !k.inside(rest[e]))
    ensures e == Extent(k, block, after)
    ensures !HoldsTogether(k, block) ==> e < |block|
  {
    var rest := block + Ended(after);
    e := End(k, block, 1);
    if HoldsTogether(k, block) {
      EndIs(k, block, 1, |block|);
      if after == [] {
        e := |block| + 1;
        assert rest[|block|] == "";
      } else {
        assert rest[|block|] == after[0];
      }
    }
  }

  lemma ExtentIsFound(k: Marks, b: seq<string>, block: seq<string>, after: seq<string>)
    requires Sane(k) && Blocky(k, block) && (after != [] ==> !k.inside(after[0]))
    ensures End(k, b + block + Ended(after), |b| + 1) == |b| + Extent(k, block, after)
    ensures Extent(k, block, after) <= |block| + |Ended(after)|
  {
    var rest := block + Ended(after);
    var e := EndIsFoundAgain(k, block, after);
    Reassociate(b, block, Ended(after));
    FoundUpTo(k, b + rest, b, rest, e);
  }

  lemma CutAt(b: seq<string>, block: seq<string>, tail: seq<string>, e: nat)
    requires e <= |block| + |tail|
    ensures (b + block + tail)[|b| + e..] == if e <= |block| then block[e..] + tail else tail[e - |block|..]
  {
  }

  lemma CutAfter(b: seq<string>, block: seq<string>, tail: seq<string>, e: nat)
    requires 1 <= |block| <= e <= |block| + |tail|
    ensures (b + block + tail)[|b| + 1..|b| + e] == block[1..] + tail[..e - |block|]
  {
  }

  /** What is left of a block and the text after it, past the block's extent. */
  function LeftOver(k: Marks, block: seq<string>, after: seq<string>): seq<string>
    requires block != []
  {
    if !HoldsTogether(k, block) then block[End(k, block, 1)..] + Ended(after)
    else if after == [] then [] else Ended(after)
  }

  lemma LeftOverIs(k: Marks, block: seq<string>, after: seq<string>)
    requires block != []
    ensures var e, tail := Extent(k, block, after), Ended(after);
            && e <= |block| + |tail|
            && LeftOver(k, block, after) == if e <= |block| then block[e..] + tail else tail[e - |block|..]
  {
    assert block[|block|..] + Ended(after) == Ended(after);
    assert after == [] ==> Ended(after)[1..] == [];
  }

  lemma CutLeft(k: Marks, b: seq<string>, block: seq<string>, after: seq<string>)
    requires block != []
    ensures Extent(k, block, after) <= |block| + |Ended(after)|
    ensures (b + block + Ended(after))[|b| + Extent(k, block, after)..] == LeftOver(k, block, after)
  {
    LeftOverIs(k, block, after);
    CutAt(b, block, Ended(after), Extent(k, block, after));
  }

  /** At the end of the text the block takes in the empty line that stands for the final newline. */
  function Blanks(after: seq<string>): (r: seq<string>)
    ensures forall i :: 0 <= i < |r| ==> r[i] == ""
  {
    if after == [] then [""] else []
  }

  lemma BlanksAre(after: seq<string>)
    ensures Ended(after)[..|Blanks(after)|] == Blanks(after)
  {
  }

  lemma CutOut(b: seq<string>, block: seq<string>, after: seq<string>)
    requires block != []
    ensures (b + block + Ended(after))[|b| + 1..|b| + (|block| + |Blanks(after)|)] == block[1..] + Blanks(after)
  {
    BlanksAre(after);
    CutAfter(b, block, Ended(after), |block| + |Blanks(after)|);
  }

  /** How long a block is that holds together. */
  lemma BlockHolds(k: Marks, b: seq<string>, block: seq<string>, after: seq<string>)
    requires Sane(k) && Blocky(k, block) && (after != [] ==> !k.inside(after[0])) && HoldsTogether(k, block)
    ensures End(k, b + block + Ended(after), |b| + 1) == |b| + (|block| + |Blanks(after)|)
  {
    ExtentIsFound(k, b, block, after);
  }

  /** The block is found again where it was put, up to its first line that is not inside. */
  lemma BlockIsFoundAgain(k: Marks, ls: seq<string>, block: seq<string>)
    requires Sane(k) && ls != [] && Blocky(k, block)
    ensures Before(k, EditLines(k, ls, block)) == Before(k, ls)
    ensures After(k, EditLines(k, ls, block)) == LeftOver(k, block, After(k, ls))
  {
    StartIsFoundAgain(k, ls, block);
    EditIsThreeParts(k, ls, block);
    ExtentIsFound(k, Before(k, ls), block, After(k, ls));
    CutLeft(k, Before(k, ls), block, After(k, ls));
  }

  /** Put after put is the second put, exactly when the first block held together. */
  lemma PutPutLines(k: Marks, ls: seq<string>, one: seq<string>, two: seq<string>)
    requires Sane(k) && ls != [] && Blocky(k, one) && Blocky(k, two)
    ensures EditLines(k, EditLines(k, ls, one), two) == EditLines(k, ls, two) <==> HoldsTogether(k, one)
  {
    var out := EditLines(k, ls, one);
    EditIsThreeParts(k, ls, one);
    BlockIsFoundAgain(k, ls, one);
    EditIsThreeParts(k, ls, two);
    EditIsThreeParts(k, out, two);
    if !HoldsTogether(k, one) {
      var e := EndIsFoundAgain(k, one, After(k, ls));
      assert |EditLines(k, out, two)| > |EditLines(k, ls, two)|;
    }
  }

  /** The lines a reader takes for the block are those that were put, and at the end of the text an empty one. */
  lemma BlockIsReadAgain(k: Marks, ls: seq<string>, block: seq<string>)
    requires Sane(k) && ls != [] && Blocky(k, block) && HoldsTogether(k, block)
    ensures var out := EditLines(k, ls, block);
            && Start(k, out) < |out|
            && out[Start(k, out) + 1..End(k, out, Start(k, out) + 1)]
               == block[1..] + Blanks(After(k, ls))
  {
    StartIsFoundAgain(k, ls, block);
    EditIsThreeParts(k, ls, block);
    BlockHolds(k, Before(k, ls), block, After(k, ls));
    CutOut(Before(k, ls), block, After(k, ls));
  }

  lemma EditIsClean(k: Marks, ls: seq<string>, block: seq<string>)
    requires ls != [] && Blocky(k, block) && Clean(ls) && Clean(block)
    ensures Split(Join(EditLines(k, ls, block))) == EditLines(k, ls, block)
  {
    EditIsThreeParts(k, ls, block);
    PartsAreClean(k, ls);
    var out := Before(k, ls) + block + Ended(After(k, ls));
    assert out != [] && Clean(out);
    SplitOfJoin(out);
  }

  lemma PartsAreClean(k: Marks, ls: seq<string>)
    requires ls != [] && Clean(ls)
    ensures Clean(Before(k, ls)) && Clean(Ended(After(k, ls)))
  {
  }

  // ----- The edit on text -----

  predicate EndsWithNewline(s: string) { s != "" && s[|s| - 1] == '\n' }

  lemma ClosedIsNewline(ls: seq<string>)
    requires ls != [] && Clean(ls)
    ensures Closed(ls) <==> EndsWithNewline(Join(ls))
  {
    var n := |ls| - 1;
    if n > 0 {
      assert ls == ls[..n] + [ls[n]];
      JoinAppend(ls[..n], [ls[n]]);
    }
  }

  lemma CloseIsNewline(ls: seq<string>)
    requires ls != [] && Clean(ls)
    ensures Join(Close(ls)) == if EndsWithNewline(Join(ls)) then Join(ls) else Join(ls) + "\n"
  {
    ClosedIsNewline(ls);
    JoinAppend(ls, [""]);
    assert Join(ls) + "\n" + "" == Join(ls) + "\n";
  }

  lemma {:induction false} TrimmedLines(src: string)
    ensures Split(TrimRight(src, {'\n'})) == Chop(Split(src))
  {
    if EndsWithNewline(src) {
      var most := src[..|src| - 1];
      assert src == most + "\n" + "";
      SplitAcross(most, "");
      assert Split(src)[..|Split(src)| - 1] == Split(most);
      TrimmedLines(most);
    } else {
      JoinOfSplit(src);
      ClosedIsNewline(Split(src));
    }
  }

  lemma Newlines(t: string, block: string)
    ensures t + "\n" + "" + "\n" + block + "\n" + "" == t + "\n\n" + block + "\n"
  {
    assert "\n" + "\n" == "\n\n";
  }

  /** Without a header the block goes to the end, an empty line before it. */
  lemma EditAtEnd(k: Marks, src: string, block: string)
    requires Start(k, Split(src)) == |Split(src)|
    ensures Join(EditLines(k, Split(src), Split(block))) == TrimRight(src, {'\n'}) + "\n\n" + block + "\n"
  {
    var trimmed, ls := TrimRight(src, {'\n'}), Chop(Split(src));
    TrimmedLines(src);
    JoinOfSplit(trimmed);
    JoinOfSplit(block);
    JoinAppend(ls, [""]);
    JoinAppend(ls + [""], Split(block));
    JoinAppend(ls + [""] + Split(block), [""]);
    Newlines(trimmed, block);
  }

  lemma EditInPlace(k: Marks, src: string, block: string, text: string)
    requires Start(k, Split(src)) < |Split(src)|
    requires var ls := Split(src);
             text == Join(ls[..Start(k, ls)] + Split(block) + ls[End(k, ls, Start(k, ls) + 1)..])
    ensures Join(EditLines(k, Split(src), Split(block))) == if EndsWithNewline(text) then text else text + "\n"
  {
    var ls := Split(src);
    JoinOfSplit(src);
    JoinOfSplit(block);
    SplicedIsClean(ls, Split(block), Start(k, ls), End(k, ls, Start(k, ls) + 1));
    CloseIsNewline(ls[..Start(k, ls)] + Split(block) + ls[End(k, ls, Start(k, ls) + 1)..]);
  }

  lemma SplicedIsClean(ls: seq<string>, block: seq<string>, s: nat, e: nat)
    requires s <= |ls| && e <= |ls| && Clean(ls) && Clean(block)
    ensures Clean(ls[..s] + block + ls[e..])
  {
  }

  /** The edit, carried out line by line. */
  method Replace(k: Marks, src: string, block: string) returns (result: string)
    ensures result == Join(EditLines(k, Split(src), Split(block)))
  {
    var lines := Split(src);
    var start := FindStart(k, lines);
    if start == |lines| {
      EditAtEnd(k, src, block);
      return TrimRight(src, {'\n'}) + "\n\n" + block + "\n";
    }
    result := ReplaceAt(k, src, lines, start, block);
  }

  method ReplaceAt(k: Marks, src: string, lines: seq<string>, start: nat, block: string) returns (result: string)
    requires lines == Split(src) && start == Start(k, lines) < |lines|
    ensures result == Join(EditLines(k, Split(src), Split(block)))
  {
    var end := FindEnd(k, lines, start + 1);
    result := Join(lines[..start] + Split(block) + lines[end..]);
    EditInPlace(k, src, block, result);
    if !EndsWithNewline(result) {
      result := result + "\n";
    }
  }

  method FindStart(k: Marks, lines: seq<string>) returns (start: nat)
    ensures start == Start(k, lines)
  {
    start := 0;
    while start < |lines| && !k.header(lines[start])
      invariant start <= |lines| && forall i :: 0 <= i < start ==> !k.header(lines[i])
    {
      start := start + 1;
    }
    StartIs(k, lines, start);
  }

  method FindEnd(k: Marks, lines: seq<string>, from: nat) returns (end: nat)
    requires from <= |lines|
    ensures end == End(k, lines, from)
  {
    end := from;
    while end < |lines| && k.inside(lines[end])
      invariant from <= end <= |lines| && forall i :: from <= i < end ==> k.inside(lines[i])
    {
      end := end + 1;
    }
    EndIs(k, lines, from, end);
  }
}
