/**
 The surgical rewrite of a manifest's `images:` block: a lens on text. The put is
 `Edit`, the get is `Read`.
 */
module ImagesBlock {
  import opened Options
  import opened Text
  import opened BlockLens

  datatype ImageRef = ImageRef(digest: string, downloadBytes: int, diskBytes: int)

  predicate IsHeader(ln: string) { TrimRight(ln, {' ', '\t'}) == "images:" }

  /** Indented or blank. */
  predicate Continues(ln: string) { Blank(ln) || HasPrefix(ln, " ") || HasPrefix(ln, "\t") }

  const IMAGES := Marks(IsHeader, Continues)

  lemma {:induction false} TrimsOnlySpace(ln: string)
    ensures var t := TrimRight(ln, {' ', '\t'});
            && |t| <= |ln| && t == ln[..|t|]
            && (forall i :: |t| <= i < |ln| ==> ln[i] == ' ' || ln[i] == '\t')
            && (t != "" ==> t[|t| - 1] != ' ' && t[|t| - 1] != '\t')
  {
    if ln != "" && ln[|ln| - 1] in {' ', '\t'} { TrimsOnlySpace(ln[..|ln| - 1]); }
  }

  /** A header is `images:` at the very start of a line, with nothing after it but spaces and tabs. */
  lemma HeaderIff(ln: string)
    ensures IsHeader(ln) <==> HasPrefix(ln, "images:") && forall i :: 7 <= i < |ln| ==> ln[i] == ' ' || ln[i] == '\t'
  {
    var t := TrimRight(ln, {' ', '\t'});
    TrimsOnlySpace(ln);
    if HasPrefix(ln, "images:") && forall i :: 7 <= i < |ln| ==> ln[i] == ' ' || ln[i] == '\t' {
      assert ln[6] == "images:"[6] == ':';
      assert |t| <= 7;
      assert |t| >= 7;
    }
  }

  /** A line stays in the block if it begins with a space or a tab, or has nothing but white space. */
  lemma ContinuesIff(ln: string)
    ensures Continues(ln) <==> ln == "" || ln[0] == ' ' || ln[0] == '\t' || forall i :: 0 <= i < |ln| ==> IsSpace(ln[i])
  {
    if ln != "" {
      assert HasPrefix(ln, " ") <==> ln[0] == ' ';
      assert HasPrefix(ln, "\t") <==> ln[0] == '\t';
    }
  }

  lemma ImagesIsSane()
    ensures Sane(IMAGES) && IsHeader("images:")
  {
    assert "images:"[6] == ':';
  }

  // ----- Rendering -----

  function NameLine(img: string): string { "  " + img + ":" }
  function DigestLine(ref: ImageRef): string { "    digest: " + ref.digest }
  function DownloadLine(ref: ImageRef): string { "    download_bytes: " + Decimal(ref.downloadBytes) }
  function DiskLine(ref: ImageRef): string { "    disk_bytes: " + Decimal(ref.diskBytes) }

  function EntryLines(img: string, ref: ImageRef): (r: seq<string>)
    ensures |r| == 4
  {
    [NameLine(img), DigestLine(ref), DownloadLine(ref), DiskLine(ref)]
  }

  /** The four lines of each image. */
  function Groups(resolved: map<string, ImageRef>, imgs: seq<string>): (r: seq<seq<string>>)
    requires forall img :: img in imgs ==> img in resolved
    ensures |r| == |imgs| && forall i :: 0 <= i < |r| ==> r[i] == EntryLines(imgs[i], resolved[imgs[i]])
  {
    seq(|imgs|, i requires 0 <= i < |imgs| => EntryLines(imgs[i], resolved[imgs[i]]))
  }

  /** The block: the header, then the images in byte order. */
  function Render(resolved: map<string, ImageRef>): string {
    Listing("images:", Groups(resolved, Sorted(resolved.Keys)))
  }

  function BlockLines(resolved: map<string, ImageRef>): seq<string> { Split(Render(resolved)) }

  function Edit(src: string, resolved: map<string, ImageRef>): string {
    Join(EditLines(IMAGES, Split(src), BlockLines(resolved)))
  }

  // ----- Reading a block back -----

  function ReadField(ln: string, key: string): Option<string> {
    if HasPrefix(ln, "    " + key + ": ") then Some(ln[|key| + 6..]) else None
  }

  function ReadEntry(ls: seq<string>): Option<(string, ImageRef)>
    requires |ls| == 4
  {
    var digest := ReadField(ls[1], "digest");
    var download, disk := ReadField(ls[2], "download_bytes"), ReadField(ls[3], "disk_bytes");
    if !HasPrefix(ls[0], "  ") || |ls[0]| < 3 || ls[0][|ls[0]| - 1] != ':' || digest.None? || download.None? || disk.None?
    then None
    else
      var a, b := ReadDecimal(download.value), ReadDecimal(disk.value);
      if a.None? || b.None? then None
      else Some((ls[0][2..|ls[0]| - 1], ImageRef(digest.value, a.value, b.value)))
  }

  function ReadEntries(ls: seq<string>): Option<map<string, ImageRef>> {
    if forall i :: 0 <= i < |ls| ==> Blank(ls[i]) then Some(map[])
    else if |ls| < 4 then None
    else
      var entry, rest := ReadEntry(ls[..4]), ReadEntries(ls[4..]);
      if entry.None? || rest.None? then None else Some(rest.value[entry.value.0 := entry.value.1])
  }

  function Read(src: string): Option<map<string, ImageRef>> {
    var ls := Split(src);
    var start := Start(IMAGES, ls);
    if start == |ls| then None else ReadEntries(ls[start + 1..End(IMAGES, ls, start + 1)])
  }

  // ----- The block's lines -----

  ghost predicate OneLine(img: string, ref: ImageRef) { '\n' !in img && '\n' !in ref.digest }

  ghost predicate OneLiners(resolved: map<string, ImageRef>) {
    forall img :: img in resolved ==> OneLine(img, resolved[img])
  }

  lemma CleanConcat(a: string, b: string)
    requires '\n' !in a && '\n' !in b
    ensures '\n' !in a + b
  {
  }

  lemma DiskLineIsOne(ref: ImageRef)
    ensures '\n' !in DiskLine(ref) && DiskLine(ref) != ""
  {
    DecimalIsOneLine(ref.diskBytes);
    CleanConcat("    disk_bytes: ", Decimal(ref.diskBytes));
  }

  lemma EntryLinesAreClean(img: string, ref: ImageRef)
    requires OneLine(img, ref)
    ensures Clean(EntryLines(img, ref))
  {
    DecimalIsOneLine(ref.downloadBytes);
    DiskLineIsOne(ref);
    CleanConcat("  " + img, ":");
    CleanConcat("  ", img);
    CleanConcat("    digest: ", ref.digest);
    CleanConcat("    download_bytes: ", Decimal(ref.downloadBytes));
  }

  ghost predicate AllContinue(ls: seq<string>) {
    forall i :: 0 <= i < |ls| ==> Continues(ls[i])
  }

  lemma EntryIsIndented(img: string, ref: ImageRef)
    ensures AllContinue(EntryLines(img, ref))
  {
    var ls := EntryLines(img, ref);
    assert forall i :: 0 <= i < |ls| ==> HasPrefix(ls[i], " ");
  }

  lemma {:induction false} FlatIsIndented(groups: seq<seq<string>>)
    requires forall i :: 0 <= i < |groups| ==> AllContinue(groups[i])
    ensures AllContinue(Flat(groups))
  {
    if groups != [] { FlatIsIndented(groups[1..]); }
  }

  lemma HeaderThenIndented(h: string, ls: seq<string>)
    requires AllContinue(ls)
    ensures HoldsTogether(IMAGES, [h] + ls) && ([h] + ls)[1..] == ls
  {
  }

  /** With names and digests of one line each, the block is the header and four indented lines an image. */
  lemma OneLinersHoldTogether(resolved: map<string, ImageRef>)
    requires OneLiners(resolved)
    ensures var block := BlockLines(resolved);
            && block[1..] == Flat(Groups(resolved, Sorted(resolved.Keys)))
            && HoldsTogether(IMAGES, block)
  {
    var imgs := Sorted(resolved.Keys);
    var groups := Groups(resolved, imgs);
    forall i | 0 <= i < |imgs| ensures groups[i] != [] && Clean(groups[i]) && AllContinue(groups[i]) {
      EntryLinesAreClean(imgs[i], resolved[imgs[i]]);
      EntryIsIndented(imgs[i], resolved[imgs[i]]);
    }
    ListingLines("images:", groups);
    FlatIsIndented(groups);
    HeaderThenIndented("images:", Flat(groups));
  }

  /** Any map at all renders to a block that begins with the header and does not end blank. */
  lemma BlockIsBlocky(resolved: map<string, ImageRef>)
    ensures Blocky(IMAGES, BlockLines(resolved))
  {
    GroupsEndWell(resolved, Sorted(resolved.Keys));
    ListingEndsWell("images:", Groups(resolved, Sorted(resolved.Keys)));
    HeaderIsMark(BlockLines(resolved));
  }

  lemma HeaderIsMark(block: seq<string>)
    requires block != [] && block[0] == "images:" && block[|block| - 1] != ""
    ensures Blocky(IMAGES, block)
  {
    ImagesIsSane();
  }

  lemma GroupsEndWell(resolved: map<string, ImageRef>, imgs: seq<string>)
    requires forall img :: img in imgs ==> img in resolved
    ensures forall i :: 0 <= i < |imgs| ==> EndsWell(Groups(resolved, imgs)[i])
  {
    forall i | 0 <= i < |imgs| ensures EndsWell(Groups(resolved, imgs)[i]) {
      EntryEndsWell(imgs[i], resolved[imgs[i]]);
    }
  }

  lemma EntryEndsWell(img: string, ref: ImageRef)
    ensures EndsWell(EntryLines(img, ref))
  {
    DiskLineIsOne(ref);
  }

  // ----- The laws -----

  lemma EditedLines(src: string, resolved: map<string, ImageRef>)
    ensures Blocky(IMAGES, BlockLines(resolved)) && Sane(IMAGES)
    ensures Split(Edit(src, resolved)) == EditLines(IMAGES, Split(src), BlockLines(resolved))
  {
    ImagesIsSane();
    BlockIsBlocky(resolved);
    JoinOfSplit(src);
    JoinOfSplit(Render(resolved));
    EditIsClean(IMAGES, Split(src), BlockLines(resolved));
  }

  /**
   Rewriting twice is rewriting once with the second map: for every text, and exactly for a
   first map none of whose rendered lines falls out of the block.
   */
  lemma PutPut(src: string, one: map<string, ImageRef>, two: map<string, ImageRef>)
    ensures Edit(Edit(src, one), two) == Edit(src, two) <==> HoldsTogether(IMAGES, BlockLines(one))
    ensures OneLiners(one) ==> Edit(Edit(src, one), two) == Edit(src, two)
  {
    EditedLines(src, one);
    EditedLines(src, two);
    EditedLines(Edit(src, one), two);
    PutPutLines(IMAGES, Split(src), BlockLines(one), BlockLines(two));
    if OneLiners(one) { OneLinersHoldTogether(one); }
  }

  /** The other half does occur: an image name of two lines, the second not indented, leaves that line behind. */
  lemma TwoLineNameFallsOut(a: string, b: string, ref: ImageRef)
    requires '\n' !in a && '\n' !in b && !Continues(b + ":")
    ensures !HoldsTogether(IMAGES, BlockLines(map[a + "\n" + b := ref]))
  {
    var img := a + "\n" + b;
    var resolved := map[img := ref];
    var imgs := Sorted(resolved.Keys);
    assert resolved.Keys == {img};
    OneImage(img);
    NameSplits(a, b);
    OneListing("images:", EntryLines(img, ref));
    assert Groups(resolved, imgs) == [EntryLines(img, ref)];
    assert BlockLines(resolved)[2] == b + ":";
  }

  lemma OneListing(h: string, e: seq<string>)
    requires '\n' !in h && |e| > 1
    ensures Split(Listing(h, [e])) == [h] + Split(e[0]) + Split(Join(e[1..]))
  {
    var groups := [e];
    ListingStep(h, groups, 0);
    assert groups[..1] == groups && Listing(h, groups[..0]) == h;
    var text := Join(e);
    assert Listing(h, groups) == h + ("\n" + text) == h + "\n" + text;
    SplitOfLine(h);
    SplitAcross(h, text);
    SplitAcross(e[0], Join(e[1..]));
    Reassociate([h], Split(e[0]), Split(Join(e[1..])));
  }

  lemma NameSplits(a: string, b: string)
    requires '\n' !in a && '\n' !in b
    ensures Split(NameLine(a + "\n" + b)) == ["  " + a, b + ":"]
  {
    assert NameLine(a + "\n" + b) == "  " + a + "\n" + (b + ":");
    SplitOfLine("  " + a);
    SplitOfLine(b + ":");
    SplitAcross("  " + a, b + ":");
  }

  lemma OneImage(img: string)
    ensures Sorted({img}) == [img]
  {
    assert {img} - {img} == {};
  }

  /**
   What is not the block survives, line by line and in order: before it the text up to the
   header, or all of it but the trailing newlines and then an empty line; after it the rest
   from the first line that is neither indented nor blank, with its final newline.
   */
  lemma LinesOutsideSurvive(src: string, resolved: map<string, ImageRef>)
    ensures var was, now := Split(src), Split(Edit(src, resolved));
            && now == Before(IMAGES, was) + BlockLines(resolved) + Ended(After(IMAGES, was))
            && Before(IMAGES, now) == Before(IMAGES, was)
            && (OneLiners(resolved) ==>
                  After(IMAGES, now) == if After(IMAGES, was) == [] then [] else Ended(After(IMAGES, was)))
  {
    EditedLines(src, resolved);
    EditIsThreeParts(IMAGES, Split(src), BlockLines(resolved));
    BlockIsFoundAgain(IMAGES, Split(src), BlockLines(resolved));
    if OneLiners(resolved) { OneLinersHoldTogether(resolved); }
  }

  // ----- Reading back what was put -----

  lemma FieldReadsBack(key: string, value: string)
    ensures ReadField("    " + key + ": " + value, key) == Some(value)
  {
    var ln, p := "    " + key + ": " + value, "    " + key + ": ";
    assert ln == p + value;
    assert ln[..|p|] == p && ln[|key| + 6..] == value;
  }

  lemma NameReadsBack(img: string)
    ensures var name := NameLine(img);
            && HasPrefix(name, "  ") && |name| >= 3 && name[|name| - 1] == ':' && name[2..|name| - 1] == img
            && !Blank(name)
  {
    var name := NameLine(img);
    assert name[2..|name| - 1] == img && name[..2] == "  " && name[|name| - 1] == ':';
    assert ':' in name && !IsSpace(':');
  }

  lemma FieldsReadBack(ref: ImageRef)
    ensures ReadField(DigestLine(ref), "digest") == Some(ref.digest)
    ensures ReadField(DownloadLine(ref), "download_bytes") == Some(Decimal(ref.downloadBytes))
    ensures ReadField(DiskLine(ref), "disk_bytes") == Some(Decimal(ref.diskBytes))
  {
    assert "    digest: " == "    " + "digest" + ": ";
    assert "    download_bytes: " == "    " + "download_bytes" + ": ";
    assert "    disk_bytes: " == "    " + "disk_bytes" + ": ";
    FieldReadsBack("digest", ref.digest);
    FieldReadsBack("download_bytes", Decimal(ref.downloadBytes));
    FieldReadsBack("disk_bytes", Decimal(ref.diskBytes));
  }

  lemma EntryReadsBack(img: string, ref: ImageRef)
    ensures ReadEntry(EntryLines(img, ref)) == Some((img, ref))
    ensures !Blank(NameLine(img))
  {
    NameReadsBack(img);
    FieldsReadBack(ref);
    DecimalRoundTrip(ref.downloadBytes);
    DecimalRoundTrip(ref.diskBytes);
  }

  lemma EntryIsReadFirst(ls: seq<string>, img: string, ref: ImageRef, rest: map<string, ImageRef>)
    requires |ls| >= 4 && ls[..4] == EntryLines(img, ref) && ReadEntries(ls[4..]) == Some(rest)
    ensures ReadEntries(ls) == Some(rest[img := ref])
  {
    EntryReadsBack(img, ref);
    assert ls[0] == ls[..4][0];
  }

  lemma FirstGroup(e: seq<string>, more: seq<string>, rest: seq<string>)
    requires |e| == 4
    ensures (e + more + rest)[..4] == e && (e + more + rest)[4..] == more + rest
  {
  }

  function Restricted(resolved: map<string, ImageRef>, imgs: seq<string>): map<string, ImageRef> {
    map img | img in imgs && img in resolved :: resolved[img]
  }

  lemma RestrictedGrows(resolved: map<string, ImageRef>, imgs: seq<string>, i: nat)
    requires i < |imgs| && imgs[i] in resolved
    ensures Restricted(resolved, imgs[i..]) == Restricted(resolved, imgs[i + 1..])[imgs[i] := resolved[imgs[i]]]
  {
    assert imgs[i..] == [imgs[i]] + imgs[i + 1..];
  }

  lemma {:induction false} EntriesReadBack(resolved: map<string, ImageRef>, imgs: seq<string>, i: nat, rest: seq<string>)
    requires i <= |imgs| && forall img :: img in imgs ==> img in resolved
    requires forall i :: 0 <= i < |rest| ==> Blank(rest[i])
    ensures ReadEntries(Flat(Groups(resolved, imgs)[i..]) + rest) == Some(Restricted(resolved, imgs[i..]))
    decreases |imgs| - i
  {
    var groups := Groups(resolved, imgs);
    if i == |imgs| {
      assert Flat(groups[i..]) + rest == rest;
      assert Restricted(resolved, imgs[i..]) == map[];
    } else {
      EntriesReadBack(resolved, imgs, i + 1, rest);
      assert groups[i..][0] == groups[i] && groups[i..][1..] == groups[i + 1..];
      FirstGroup(groups[i], Flat(groups[i + 1..]), rest);
      EntryIsReadFirst(Flat(groups[i..]) + rest, imgs[i], resolved[imgs[i]], Restricted(resolved, imgs[i + 1..]));
      RestrictedGrows(resolved, imgs, i);
    }
  }

  lemma GroupsReadBack(resolved: map<string, ImageRef>, rest: seq<string>)
    requires forall i :: 0 <= i < |rest| ==> Blank(rest[i])
    ensures ReadEntries(Flat(Groups(resolved, Sorted(resolved.Keys))) + rest) == Some(resolved)
  {
    var imgs := Sorted(resolved.Keys);
    EntriesReadBack(resolved, imgs, 0, rest);
    WholeSlice(Groups(resolved, imgs));
    WholeSlice(imgs);
    RestrictedToAll(resolved);
  }

  lemma WholeSlice<T>(s: seq<T>)
    ensures s[0..] == s
  {
  }

  lemma RestrictedToAll(resolved: map<string, ImageRef>)
    ensures Restricted(resolved, Sorted(resolved.Keys)) == resolved
  {
  }

  lemma SliceIsClean(ln: string, i: nat, j: nat)
    requires '\n' !in ln && i <= j <= |ln|
    ensures '\n' !in ln[i..j]
  {
    assert forall k :: 0 <= k < j - i ==> ln[i..j][k] == ln[i + k];
  }

  lemma EntryOfOneLiners(ls: seq<string>)
    requires |ls| == 4 && Clean(ls) && ReadEntry(ls).Some?
    ensures OneLine(ReadEntry(ls).value.0, ReadEntry(ls).value.1)
  {
    SliceIsClean(ls[0], 2, |ls[0]| - 1);
    SliceIsClean(ls[1], |"digest"| + 6, |ls[1]|);
  }

  /** What is read from lines has no newline in it. */
  lemma {:induction false} ReadsOneLiners(ls: seq<string>)
    requires Clean(ls) && ReadEntries(ls).Some?
    ensures OneLiners(ReadEntries(ls).value)
  {
    if exists i :: 0 <= i < |ls| && !Blank(ls[i]) {
      EntryOfOneLiners(ls[..4]);
      ReadsOneLiners(ls[4..]);
    }
  }

  lemma ReadIsOneLiners(text: string)
    ensures Read(text).Some? ==> OneLiners(Read(text).value)
  {
    var ls := Split(text);
    JoinOfSplit(text);
    if Read(text).Some? {
      ReadsOneLiners(ls[Start(IMAGES, ls) + 1..End(IMAGES, ls, Start(IMAGES, ls) + 1)]);
    }
  }

  lemma ReadsBack(src: string, resolved: map<string, ImageRef>)
    requires OneLiners(resolved)
    ensures Read(Edit(src, resolved)) == Some(resolved)
  {
    EditedLines(src, resolved);
    OneLinersHoldTogether(resolved);
    BlockIsReadAgain(IMAGES, Split(src), BlockLines(resolved));
    GroupsReadBack(resolved, Blanks(After(IMAGES, Split(src))));
  }

  /** Reading the block gives back the map that was put, whatever the text was, exactly when its names and digests are of one line. */
  lemma PutGet(src: string, resolved: map<string, ImageRef>)
    ensures Read(Edit(src, resolved)) == Some(resolved) <==> OneLiners(resolved)
  {
    if OneLiners(resolved) {
      ReadsBack(src, resolved);
    } else {
      ReadIsOneLiners(Edit(src, resolved));
    }
  }

  // ----- The edit as it is carried out -----

  lemma JoinFour(a: string, b: string, c: string, d: string)
    ensures Join([a, b, c, d]) == a + "\n" + (b + "\n" + (c + "\n" + d))
  {
    assert [a, b, c, d][1..] == [b, c, d] && [b, c, d][1..] == [c, d] && [c, d][1..] == [d];
    assert Join([c, d]) == c + "\n" + d;
    assert Join([b, c, d]) == b + "\n" + Join([c, d]);
  }

  method RenderEntry(img: string, ref: ImageRef) returns (b: string)
    ensures b == "\n" + Join(EntryLines(img, ref))
  {
    JoinFour(NameLine(img), DigestLine(ref), DownloadLine(ref), DiskLine(ref));
    b := "\n" + (NameLine(img) + "\n" + (DigestLine(ref) + "\n" + (DownloadLine(ref) + "\n" + DiskLine(ref))));
  }

  method RenderImagesBlock(resolved: map<string, ImageRef>) returns (b: string)
    ensures b == Render(resolved)
  {
    var imgs := Sorted(resolved.Keys);
    ghost var groups := Groups(resolved, imgs);
    b := "images:";
    for i := 0 to |imgs|
      invariant b == Listing("images:", groups[..i])
    {
      var entry := RenderEntry(imgs[i], resolved[imgs[i]]);
      ListingStep("images:", groups, i);
      b := b + entry;
    }
    assert groups[..|imgs|] == groups;
  }

  method ReplaceImagesBlock(src: string, resolved: map<string, ImageRef>) returns (result: string)
    ensures result == Edit(src, resolved)
  {
    var block := RenderImagesBlock(resolved);
    result := Replace(IMAGES, src, block);
  }
}
