/** Exact-anchor editing: `apply_patch` replaces an anchor that Python's `str.count` counts once. */
module Patch {
  import opened Domain

  predicate OccursAt(text: string, anchor: string, i: nat) {
    i + |anchor| <= |text| && text[i..i + |anchor|] == anchor
  }

  /** `str.find(anchor, from)`: the first occurrence at or after `from`. */
  function Find(text: string, anchor: string, from: nat): (r: Option<nat>)
    ensures r.None? <==> forall i :: from <= i ==> !OccursAt(text, anchor, i)
    ensures r.Some? ==> from <= r.value && OccursAt(text, anchor, r.value)
    ensures r.Some? ==> forall i :: from <= i < r.value ==> !OccursAt(text, anchor, i)
    decreases |text| - from
  {
    if from + |anchor| > |text| then None
    else if OccursAt(text, anchor, from) then Some(from)
    else Find(text, anchor, from + 1)
  }

  /** `str.count`: greedy, non-overlapping, left to right; an empty anchor counts once per gap. */
  function Count(text: string, anchor: string): nat {
    if anchor == "" then |text| + 1 else CountFrom(text, anchor, 0)
  }

  function CountFrom(text: string, anchor: string, from: nat): nat
    requires anchor != ""
    decreases |text| - from
  {
    match Find(text, anchor, from)
    case None => 0
    case Some(i) => 1 + CountFrom(text, anchor, i + |anchor|)
  }

  /** `str.replace(old, new, 1)`. */
  function ReplaceFirst(text: string, old': string, new': string): string {
    match Find(text, old', 0)
    case None => text
    case Some(i) => Splice(text, i, |old'|, new')
  }

  function Splice(text: string, at: nat, length: nat, insert: string): string
    requires at + length <= |text|
  {
    text[..at] + insert + text[at + length..]
  }

  /** Text mode with universal newlines: CRLF and CR are read as LF. */
  function Read(stored: string): string {
    if stored == "" then ""
    else if stored[0] != '\r' then [stored[0]] + Read(stored[1..])
    else "\n" + Read(if |stored| > 1 && stored[1] == '\n' then stored[2..] else stored[1..])
  }

  datatype PatchError = WritesNotPermitted | OutsideWorkspace | FileNotFound | Identical
      | AnchorMissing | AnchorRepeated(times: nat)

  datatype PatchResult = Patched(text: string) | Refused(error: PatchError)

  function PatchText(text: string, old': string, new': string): PatchResult {
    if old' == new' then Refused(Identical)
    else if Count(text, old') == 0 then Refused(AnchorMissing)
    else if Count(text, old') > 1 then Refused(AnchorRepeated(Count(text, old')))
    else Patched(ReplaceFirst(text, old', new'))
  }

  /** Leftmost occurrence. */
  ghost predicate Leftmost(text: string, anchor: string, p: nat) {
    OccursAt(text, anchor, p) && forall i :: 0 <= i < p ==> !OccursAt(text, anchor, i)
  }

  ghost predicate AllOverlap(text: string, anchor: string, p: nat) {
    forall i: nat :: OccursAt(text, anchor, i) ==> i == p || p < i < p + |anchor|
  }

  /** The count is zero exactly when there is no occurrence. */
  lemma CountZero(text: string, anchor: string)
    ensures Count(text, anchor) == 0 <==> forall i: nat :: !OccursAt(text, anchor, i)
  {
    if anchor == "" { assert OccursAt(text, anchor, 0); }
  }

  lemma EmptyAnchor(text: string)
    ensures Count(text, "") == 1 <==> exists p: nat :: Leftmost(text, "", p) && AllOverlap(text, "", p)
  {
    assert forall i: nat :: i <= |text| ==> OccursAt(text, "", i);
    if |text| == 0 {
      assert Leftmost(text, "", 0) && AllOverlap(text, "", 0);
    } else {
      assert OccursAt(text, "", 0) && OccursAt(text, "", 1);
    }
  }

  /** Places at which the anchor occurs, from `from` on, without overlap. */
  predicate Apart(text: string, anchor: string, from: nat, places: seq<nat>)
    decreases |places|
  {
    places == []
    || (places[0] >= from && OccursAt(text, anchor, places[0])
        && Apart(text, anchor, places[0] + |anchor|, places[1..]))
  }

  /** The greedy count is the most that fit without overlap: it is reached, */
  lemma {:induction false} CountIsReached(text: string, anchor: string, from: nat) returns (places: seq<nat>)
    requires anchor != ""
    ensures Apart(text, anchor, from, places) && |places| == CountFrom(text, anchor, from)
    decreases |text| - from
  {
    hide OccursAt;
    match Find(text, anchor, from)
    case None => places := [];
    case Some(i) =>
      FoundFits(text, anchor, i);
      var rest := CountIsReached(text, anchor, i + |anchor|);
      places := [i] + rest;
      assert places[1..] == rest;
  }

  lemma FoundFits(text: string, anchor: string, i: nat)
    requires OccursAt(text, anchor, i)
    ensures i + |anchor| <= |text|
  {
  }

  /** and never exceeded. */
  lemma {:induction false} CountIsMost(text: string, anchor: string, from: nat, places: seq<nat>)
    requires anchor != "" && Apart(text, anchor, from, places)
    ensures |places| <= CountFrom(text, anchor, from)
    decreases |text| - from
  {
    hide OccursAt;
    if places != [] {
      var i := Find(text, anchor, from).value;
      FoundFits(text, anchor, i);
      ApartFrom(text, anchor, places[0] + |anchor|, i + |anchor|, places[1..]);
      CountIsMost(text, anchor, i + |anchor|, places[1..]);
    }
  }

  lemma ApartFrom(text: string, anchor: string, from: nat, earlier: nat, places: seq<nat>)
    requires Apart(text, anchor, from, places) && earlier <= from
    ensures Apart(text, anchor, earlier, places)
  {
  }

  /** After the leftmost occurrence at `p`, nothing more is counted exactly when all others overlap it. */
  lemma CountAfterFirst(text: string, anchor: string, p: nat)
    requires anchor != "" && Leftmost(text, anchor, p)
    ensures CountFrom(text, anchor, p + |anchor|) == 0 <==> AllOverlap(text, anchor, p)
  {
    var next := Find(text, anchor, p + |anchor|);
    assert CountFrom(text, anchor, p + |anchor|) == 0 <==> next.None?;
    if next.None? {
      assert AllOverlap(text, anchor, p);
    } else {
      assert OccursAt(text, anchor, next.value);
    }
  }

  /** The count is one exactly when every other occurrence overlaps the leftmost one. */
  lemma CountOne(text: string, anchor: string)
    ensures Count(text, anchor) == 1 <==> exists p: nat :: Leftmost(text, anchor, p) && AllOverlap(text, anchor, p)
  {
    if anchor == "" {
      EmptyAnchor(text);
    } else {
      match Find(text, anchor, 0)
      case None =>
      case Some(p) =>
        assert Leftmost(text, anchor, p);
        assert forall q: nat :: Leftmost(text, anchor, q) ==> q == p;
        CountAfterFirst(text, anchor, p);
    }
  }

  /** In the text as read, a successful patch rewrites exactly the leftmost occurrence and nothing around it. */
  lemma PatchedAtLeftmost(text: string, old': string, new': string) returns (p: nat)
    requires PatchText(text, old', new').Patched?
    ensures Leftmost(text, old', p) && AllOverlap(text, old', p)
    ensures PatchText(text, old', new').text == text[..p] + new' + text[p + |old'|..]
  {
    CountOne(text, old');
    p :| Leftmost(text, old', p) && AllOverlap(text, old', p);
    assert Find(text, old', 0) == Some(p);
  }

  /** An anchor no proper prefix of which is also its suffix. */
  ghost predicate CannotOverlapItself(anchor: string) {
    forall k :: 0 < k < |anchor| ==> anchor[k..] != anchor[..|anchor| - k]
  }

  ghost predicate OccursOnlyAt(text: string, anchor: string, p: nat) {
    OccursAt(text, anchor, p) && forall i: nat :: OccursAt(text, anchor, i) ==> i == p
  }

  lemma OverlapIsBorder(text: string, anchor: string, p: nat, i: nat)
    requires OccursAt(text, anchor, p) && OccursAt(text, anchor, i) && p < i < p + |anchor|
    ensures anchor[i - p..] == anchor[..|anchor| - (i - p)]
  {
    var k := i - p;
    assert anchor[k..] == text[p..p + |anchor|][k..] == text[i..p + |anchor|];
    assert anchor[..|anchor| - k] == text[i..i + |anchor|][..|anchor| - k] == text[i..p + |anchor|];
  }

  /** For such an anchor a patch succeeds exactly when there is one position only. */
  lemma UnborderedAnchorIsUnique(text: string, old': string, new': string)
    requires CannotOverlapItself(old')
    ensures PatchText(text, old', new').Patched? <==> old' != new' && exists p: nat :: OccursOnlyAt(text, old', p)
  {
    CountOne(text, old');
    if p: nat :| Leftmost(text, old', p) && AllOverlap(text, old', p) {
      forall i: nat | OccursAt(text, old', i) ensures i == p {
        if i != p { OverlapIsBorder(text, old', p, i); }
      }
      assert OccursOnlyAt(text, old', p);
    }
    if p: nat :| OccursOnlyAt(text, old', p) {
      assert Leftmost(text, old', p) && AllOverlap(text, old', p);
    }
  }

  lemma SpliceBack(text: string, p: nat, old': string, new': string)
    requires OccursAt(text, old', p)
    ensures var t := Splice(text, p, |old'|, new'); OccursAt(t, new', p) && Splice(t, p, |new'|, old') == text
  {
    var t := Splice(text, p, |old'|, new');
    assert t[..p] == text[..p] && t[p..p + |new'|] == new' && t[p + |new'|..] == text[p + |old'|..];
    assert text == text[..p] + text[p..p + |old'|] + text[p + |old'|..];
  }

  /** In the text as read, the reverse patch undoes a patch whenever the new text occurs at one position only. */
  lemma ReverseTextRestores(text: string, old': string, new': string, q: nat)
    requires PatchText(text, old', new').Patched? && OccursOnlyAt(PatchText(text, old', new').text, new', q)
    ensures PatchText(PatchText(text, old', new').text, new', old') == Patched(text)
  {
    var p := PatchedAtLeftmost(text, old', new');
    var t := PatchText(text, old', new').text;
    SpliceBack(text, p, old', new');
    assert Leftmost(t, new', p) && AllOverlap(t, new', p);
    CountOne(t, new');
    assert Find(t, new', 0) == Some(p);
  }

  /** It undoes the patch if and only if it is accepted at the place where the patch was made. */
  lemma ReverseTextIff(text: string, old': string, new': string)
    requires PatchText(text, old', new').Patched?
    ensures var t := PatchText(text, old', new').text;
      PatchText(t, new', old') == Patched(text) <==> Count(t, new') == 1 && Find(t, new', 0) == Find(text, old', 0)
  {
    var p := PatchedAtLeftmost(text, old', new');
    var t := PatchText(text, old', new').text;
    SpliceBack(text, p, old', new');
    assert Find(text, old', 0) == Some(p);
    CountZero(t, new');
    if PatchText(t, new', old') == Patched(text) {
      var q := PatchedAtLeftmost(t, new', old');
      assert text[q..q + |old'|] == old';
      assert OccursAt(text, old', q);
      assert Find(t, new', 0) == Some(q);
    }
  }

  // Files: what is stored is translated when it is read, and written back as it is

  function PatchFile(stored: string, old': string, new': string): PatchResult {
    PatchText(Read(stored), old', new')
  }

  lemma {:induction false} ReadHasNoReturns(stored: string)
    ensures '\r' !in Read(stored)
    ensures Read(stored) == stored <==> '\r' !in stored
    decreases |stored|
  {
    if stored != "" {
      if stored[0] != '\r' {
        ReadHasNoReturns(stored[1..]);
        assert stored == [stored[0]] + stored[1..];
      } else {
        ReadHasNoReturns(if |stored| > 1 && stored[1] == '\n' then stored[2..] else stored[1..]);
        assert Read(stored)[0] == '\n';
      }
    }
  }

  lemma OccurrenceIsInText(text: string, anchor: string, i: nat)
    requires OccursAt(text, anchor, i)
    ensures forall c :: c in anchor ==> c in text
  {
    assert forall k :: 0 <= k < |anchor| ==> anchor[k] == text[i..i + |anchor|][k] == text[i + k];
  }

  /** Reading goes piece by piece, except that a CR and the LF behind it are one newline; a CR alone is one, too. */
  lemma {:induction false} ReadPieces(a: string, b: string)
    requires a == "" || b == "" || a[|a| - 1] != '\r' || b[0] != '\n'
    ensures Read(a + b) == Read(a) + Read(b)
    decreases |a|
  {
    if a == "" {
      assert a + b == b;
    } else if b == "" {
      assert a + b == a;
    } else {
      var used := if a[0] == '\r' && |a| > 1 && a[1] == '\n' then 2 else 1;
      FrontOf(a, b, used);
      ReadStep(a, used);
      ReadStep(a + b, used);
      hide Read;
      ReadPieces(a[used..], b);
      Regroup(if a[0] == '\r' then "\n" else [a[0]], Read(a[used..]), Read(b));
    }
  }

  lemma FrontOf(a: string, b: string, used: nat)
    requires a != "" && b != "" && used <= |a|
    ensures (a + b)[0] == a[0] && (a + b)[1] == (if |a| > 1 then a[1] else b[0]) && (a + b)[used..] == a[used..] + b
  {
  }

  lemma ReadStep(text: string, used: nat)
    requires text != "" && used == if text[0] == '\r' && |text| > 1 && text[1] == '\n' then 2 else 1
    ensures Read(text) == (if text[0] == '\r' then "\n" else [text[0]]) + Read(text[used..])
  {
  }

  lemma ReadNewlines()
    ensures Read("\r") == "\n" && Read("\n") == "\n" && Read("\r\n") == "\n"
  {
    assert "\r\n"[2..] == "" && "\r"[1..] == "" && "\n"[1..] == "";
  }

  /** An anchor that holds a carriage return is never found, not even right after it was written. */
  lemma ReturnsAreNeverFound(stored: string, anchor: string, new': string)
    requires '\r' in anchor && anchor != new'
    ensures PatchFile(stored, anchor, new') == Refused(AnchorMissing)
  {
    ReadHasNoReturns(stored);
    var text := Read(stored);
    forall i: nat ensures OccursAt(text, anchor, i) ==> forall c :: c in anchor ==> c in text {
      if OccursAt(text, anchor, i) { OccurrenceIsInText(text, anchor, i); }
    }
    CountZero(text, anchor);
  }

  lemma PatchAddsNoReturns(text: string, old': string, new': string)
    requires PatchText(text, old', new').Patched? && '\r' !in text && '\r' !in new'
    ensures '\r' !in PatchText(text, old', new').text
  {
    var p := PatchedAtLeftmost(text, old', new');
    assert forall c :: c in text[..p] || c in text[p + |old'|..] ==> c in text;
  }

  /** After a patch, the reverse patch is refused if the new text holds a carriage return. Otherwise, when the new
      text has one position, it succeeds and stores the file as it was read, which is the file as it was stored
      exactly when that held no carriage return. */
  lemma ReversePatchRestores(stored: string, old': string, new': string, q: nat)
    requires PatchFile(stored, old', new').Patched?
    ensures var t := PatchFile(stored, old', new').text;
      && ('\r' in new' ==> PatchFile(t, new', old') == Refused(AnchorMissing))
      && ('\r' !in new' ==> Read(t) == t)
      && ('\r' !in new' && OccursOnlyAt(t, new', q) ==>
            PatchFile(t, new', old') == Patched(Read(stored)))
    ensures Read(stored) == stored <==> '\r' !in stored
  {
    ReadHasNoReturns(stored);
    var t := PatchFile(stored, old', new').text;
    if '\r' in new' {
      ReturnsAreNeverFound(t, new', old');
    } else {
      PatchAddsNoReturns(Read(stored), old', new');
      ReadHasNoReturns(t);
      if OccursOnlyAt(t, new', q) { ReverseTextRestores(Read(stored), old', new', q); }
    }
  }

  /** The round trip ends where it began if and only if neither the new text nor the file held a carriage return,
      and the reverse patch is accepted at the place of the patch. */
  lemma RoundTripIff(stored: string, old': string, new': string)
    requires PatchFile(stored, old', new').Patched?
    ensures var t := PatchFile(stored, old', new').text;
      PatchFile(t, new', old') == Patched(stored) <==>
        && '\r' !in new' && '\r' !in stored
        && Count(t, new') == 1 && Find(t, new', 0) == Find(stored, old', 0)
  {
    var text, t := Read(stored), PatchFile(stored, old', new').text;
    ReversePatchRestores(stored, old', new', 0);
    if '\r' !in new' {
      ReverseTextIff(text, old', new');
      ReadHasNoReturns(stored);
      var p := PatchedAtLeftmost(text, old', new');
      OccurrenceIsInText(text, old', p);
      PatchAddsNoReturns(text, old', new');
      if PatchText(t, new', old').Patched? { PatchAddsNoReturns(t, new', old'); }
    }
  }

  /** A new text with CRLF cannot be patched back; and any patch of a file with CRLF turns all of it into LF. */
  lemma ReturnsAreNotRestored()
    ensures PatchFile("a", "a", "x\r\ny") == Patched("x\r\ny")
    ensures PatchFile("x\r\ny", "x\r\ny", "a") == Refused(AnchorMissing)
    ensures PatchFile("a\r\nb", "a", "x") == Patched("x\nb")
    ensures PatchFile("x\nb", "x", "a") == Patched("a\nb")
  {
    ReadExamples();
    hide Read, PatchText;
    PatchOne("a", "a", "x\r\ny");
    ReturnsAreNeverFound("x\r\ny", "x\r\ny", "a");
    PatchOne("a\nb", "a", "x");
    PatchOne("x\nb", "x", "a");
  }

  lemma ReadExamples()
    ensures Read("a") == "a" && Read("a\r\nb") == "a\nb" && Read("x\nb") == "x\nb"
  {
    var crlf := "a\r\nb";
    assert crlf[1..] == "\r\nb" && crlf[1..][2..] == "b";
    assert Read("b") == "b" && Read(crlf[1..]) == "\n" + Read("b");
    ReadHasNoReturns("x\nb");
  }

  /** An anchor of one character that stands at the start of the text only. */
  lemma PatchOne(text: string, old': string, new': string)
    requires |old'| == 1 && old' != new' && text != "" && text[0] == old'[0] && old'[0] !in text[1..]
    ensures PatchText(text, old', new') == Patched(new' + text[1..])
  {
    assert OccursAt(text, old', 0);
    forall i: nat ensures OccursAt(text, old', i) ==> i < |text| && text[i] == old'[0] {
      assert OccursAt(text, old', i) ==> text[i..i + 1][0] == old'[0];
    }
    assert forall i :: 1 <= i < |text| ==> text[i] == text[1..][i - 1];
    assert Leftmost(text, old', 0) && AllOverlap(text, old', 0);
    CountOne(text, old');
    assert Find(text, old', 0) == Some(0);
  }

  /** The files of one task workspace; a path is inside when `inside` says so. */
  class Workspace {
    var files: map<string, string>
    var writeAllowed: bool
    const inside: string -> bool

    constructor (files: map<string, string>, writeAllowed: bool, inside: string -> bool)
      ensures this.files == files && this.writeAllowed == writeAllowed && this.inside == inside
    {
      this.files, this.writeAllowed, this.inside := files, writeAllowed, inside;
    }

    /** Fails loudly or rewrites one file, as read and then patched; never touches another. */
    method ApplyPatch(path: string, old': string, new': string) returns (r: PatchResult)
      modifies this`files
      ensures r.Patched? <==>
          writeAllowed && inside(path) && path in old(files) && PatchFile(old(files)[path], old', new').Patched?
      ensures r.Patched? ==> r == PatchFile(old(files)[path], old', new') && files == old(files)[path := r.text]
      ensures r.Refused? ==> files == old(files)
      ensures writeAllowed && inside(path) && path in old(files) ==> r == PatchFile(old(files)[path], old', new')
      ensures r == Refused(WritesNotPermitted) <==> !writeAllowed
      ensures r == Refused(OutsideWorkspace) <==> writeAllowed && !inside(path)
      ensures r == Refused(FileNotFound) <==> writeAllowed && inside(path) && path !in old(files)
      ensures writeAllowed && inside(path) && path in old(files) ==>
        var text := Read(old(files)[path]);
        && (r == Refused(Identical) <==> old' == new')
        && (r == Refused(AnchorMissing) <==> old' != new' && Count(text, old') == 0)
        && (Count(text, old') > 1 && old' != new' ==> r == Refused(AnchorRepeated(Count(text, old'))))
    {
      if !writeAllowed { return Refused(WritesNotPermitted); }
      if !inside(path) { return Refused(OutsideWorkspace); }
      if path !in files { return Refused(FileNotFound); }
      if old' == new' { return Refused(Identical); }
      var original := Read(files[path]);
      var occurrences := Count(original, old');
      if occurrences == 0 { return Refused(AnchorMissing); }
      if occurrences > 1 { return Refused(AnchorRepeated(occurrences)); }
      var updated := ReplaceFirst(original, old', new');
      files := files[path := updated];
      return Patched(updated);
    }
  }
}
