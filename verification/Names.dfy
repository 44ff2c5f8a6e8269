/**
 Splitting identifiers into words, and the two case conversions built on it, as the two code
 generators do them. The generators share the scan; they differ in when they stop: the compiler
 crate tests for the end of the name before it skips underscores, the prost crate afterwards.

 `Segments` describes the words declaratively. Names are ASCII.
 */
module Names {
  import opened Wrappers

  datatype Crate = Prost | Compiler

  predicate IsUpper(c: char) { 'A' <= c <= 'Z' }

  predicate IsLower(c: char) { 'a' <= c <= 'z' }

  predicate Ascii(s: string) {
    forall i :: 0 <= i < |s| ==> s[i] < 128 as char
  }

  function ToLower(c: char): char {
    if IsUpper(c) then (c as int + 32) as char else c
  }

  function ToUpper(c: char): char {
    if IsLower(c) then (c as int - 32) as char else c
  }

  function Lower(s: string): (r: string)
    ensures |r| == |s|
  {
    seq(|s|, i requires 0 <= i < |s| => ToLower(s[i]))
  }

  // -------------------------------------------------------------- reference

  function SkipUnderscores(s: string): (r: string)
    ensures |r| <= |s| && (r != "" ==> r[0] != '_')
  {
    if s != "" && s[0] == '_' then SkipUnderscores(s[1..]) else s
  }

  /** The length of the longest prefix of capitals. */
  function UpperRun(s: string): (n: nat)
    ensures n <= |s|
  {
    if s != "" && IsUpper(s[0]) then 1 + UpperRun(s[1..]) else 0
  }

  predicate IsOther(c: char) { !IsUpper(c) && c != '_' }

  /** The length of the longest prefix without capitals and underscores. */
  function OtherRun(s: string): (n: nat)
    ensures n <= |s|
  {
    if s != "" && IsOther(s[0]) then 1 + OtherRun(s[1..]) else 0
  }

  /**
   The length of the word at the front: at most one capital and what follows it, or a run of
   capitals, which leaves its last letter to the next word when that letter starts one.
   */
  function SegmentLength(s: string): (n: nat)
    requires s != "" && s[0] != '_'
    ensures 1 <= n <= |s|
  {
    var upper := UpperRun(s);
    if upper <= 1 then upper + OtherRun(s[upper..])
    else if upper < |s| && s[upper] != '_' then upper - 1
    else upper
  }

  function Segments(name: string): (words: seq<string>)
    decreases |name|
  {
    var s := SkipUnderscores(name);
    if s == "" then []
    else
      var n := SegmentLength(s);
      [s[..n]] + Segments(s[n..])
  }

  lemma {:induction false} UpperRunFrom(s: string, n: nat)
    requires n <= |s| && (forall i :: 0 <= i < n ==> IsUpper(s[i])) && (n < |s| ==> !IsUpper(s[n]))
    ensures UpperRun(s) == n
  {
    if n > 0 {
      UpperRunFrom(s[1..], n - 1);
    }
  }

  lemma {:induction false} OtherRunFrom(s: string, n: nat)
    requires n <= |s| && (forall i :: 0 <= i < n ==> IsOther(s[i])) && (n < |s| ==> !IsOther(s[n]))
    ensures OtherRun(s) == n
  {
    if n > 0 {
      OtherRunFrom(s[1..], n - 1);
    }
  }

  lemma {:induction false} UpperRunCapitals(s: string)
    ensures forall i :: 0 <= i < UpperRun(s) ==> IsUpper(s[i])
  {
    if s != "" && IsUpper(s[0]) {
      UpperRunCapitals(s[1..]);
    }
  }

  lemma {:induction false} OtherRunOthers(s: string)
    ensures forall i :: 0 <= i < OtherRun(s) ==> IsOther(s[i])
  {
    if s != "" && IsOther(s[0]) {
      OtherRunOthers(s[1..]);
    }
  }

  predicate EndsInUnderscore(name: string) {
    name != [] && name[|name| - 1] == '_'
  }

  /** What the iterator of each crate yields: the compiler crate adds an empty word at a trailing underscore. */
  function Yields(crate: Crate, name: string): seq<string> {
    Segments(name) + (if crate.Compiler? && EndsInUnderscore(name) then [""] else [])
  }

  function Join(words: seq<string>): string {
    if words == [] then "" else if |words| == 1 then words[0] else words[0] + "_" + Join(words[1..])
  }

  function LowerAll(words: seq<string>): (r: seq<string>)
    ensures |r| == |words| && forall i :: 0 <= i < |r| ==> r[i] == Lower(words[i])
  {
    seq(|words|, i requires 0 <= i < |words| => Lower(words[i]))
  }

  function Capitalize(word: string): string
    requires word != []
  {
    [ToUpper(word[0])] + Lower(word[1..])
  }

  predicate NoneEmpty(words: seq<string>) {
    forall i :: 0 <= i < |words| ==> words[i] != ""
  }

  function CapitalizeAll(words: seq<string>): string
    requires NoneEmpty(words)
  {
    if words == [] then "" else Capitalize(words[0]) + CapitalizeAll(words[1..])
  }

  // ------------------------------------------------------------ the iterator

  class NameSpliter {
    const crate: Crate
    const name: string
    var pos: nat

    constructor (crate: Crate, name: string)
      ensures this.crate == crate && this.name == name && pos == 0
    {
      this.crate := crate;
      this.name := name;
      this.pos := 0;
    }

    ghost predicate Valid()
      reads this
    {
      pos <= |name|
    }

    /** The end of the word that starts at `pos`; the end of the name when nothing is left. */
    method SegmentEnd() returns (end: nat)
      requires Valid() && (pos < |name| ==> name[pos] != '_')
      ensures pos == |name| ==> end == pos
      ensures pos < |name| ==> end == pos + SegmentLength(name[pos..])
    {
      end := |name|;
      var upperLen, meetLower, i := 0, false, pos;
      while i < |name|
        invariant pos <= i <= |name| && end == |name|
        invariant !meetLower ==> upperLen == i - pos
        invariant meetLower ==> upperLen <= 1 && upperLen < i - pos
        invariant forall j :: pos <= j < pos + upperLen ==> IsUpper(name[j])
        invariant forall j :: pos + upperLen <= j < i ==> IsOther(name[j])
      {
        var c := name[i];
        if IsUpper(c) {
          if meetLower {
            end := i;
            break;
          }
          upperLen := upperLen + 1;
        } else if c == '_' {
          end := i;
          break;
        } else {
          meetLower := true;
          if upperLen > 1 {
            end := i - 1;
            break;
          }
        }
        i := i + 1;
      }
      if pos < |name| {
        ScanIsSegment(name[pos..], i - pos, upperLen, end - pos);
      }
    }

    /** Each step yields the next word and moves past it, so the words still to come are what is left. */
    method Next() returns (word: Option<string>)
      requires Valid()
      modifies this`pos
      ensures Valid()
      ensures word.None? ==> Yields(crate, old(name[pos..])) == []
      ensures word.Some? ==>
                && old(pos) < pos
                && Yields(crate, old(name[pos..])) == [word.value] + Yields(crate, name[pos..])
    {
      if crate.Compiler? && pos == |name| {
        return None;
      }
      while pos < |name| && name[pos] == '_'
        invariant old(pos) <= pos <= |name|
        invariant forall j :: old(pos) <= j < pos ==> name[j] == '_'
      {
        pos := pos + 1;
      }
      if crate.Prost? && pos == |name| {
        OnlyUnderscores(name[old(pos)..]);
        return None;
      }
      var end := SegmentEnd();
      if pos < |name| {
        FirstOfRest(crate, name, old(pos), pos, end);
      } else {
        OnlyUnderscores(name[old(pos)..]);
        assert name[end..] == "" && name[pos..end] == "";
      }
      word := Some(name[pos..end]);
      pos := end;
    }
  }

  lemma {:induction false} SkipTo(s: string, k: nat)
    requires k <= |s| && (k < |s| ==> s[k] != '_')
    requires forall j :: 0 <= j < k ==> s[j] == '_'
    ensures SkipUnderscores(s) == s[k..]
  {
    if k > 0 {
      SkipTo(s[1..], k - 1);
    }
  }

  lemma OnlyUnderscores(s: string)
    requires forall j :: 0 <= j < |s| ==> s[j] == '_'
    ensures Yields(Prost, s) == []
    ensures Yields(Compiler, s) == if s == "" then [] else [""]
  {
    SkipTo(s, |s|);
  }

  lemma Slices(name: string, from: nat, start: nat, end: nat)
    requires from <= start <= end <= |name|
    ensures name[from..][start - from..] == name[start..]
    ensures name[start..end] == name[start..][..end - start]
    ensures name[end..] == name[start..][end - start..]
  {
  }

  lemma SkipsTo(name: string, from: nat, start: nat)
    requires from <= start < |name| && name[start] != '_'
    requires forall j :: from <= j < start ==> name[j] == '_'
    ensures SkipUnderscores(name[from..]) == name[start..]
  {
    Slices(name, from, start, start);
    SkipTo(name[from..], start - from);
  }

  /** The word from `start` to `end`, found after skipping from `from`, is the first word of the rest. */
  lemma FirstOfRest(crate: Crate, name: string, from: nat, start: nat, end: nat)
    requires from <= start < |name| && name[start] != '_'
    requires forall j :: from <= j < start ==> name[j] == '_'
    requires end == start + SegmentLength(name[start..])
    ensures end <= |name|
    ensures Yields(crate, name[from..]) == [name[start..end]] + Yields(crate, name[end..])
  {
    var rest, s := name[from..], name[start..];
    Slices(name, from, start, end);
    SkipsTo(name, from, start);
    assert |rest| - |s| == start - from;
    FirstYield(crate, rest, s, name[start..end], name[end..]);
  }

  lemma FirstYield(crate: Crate, rest: string, s: string, word: string, left: string)
    requires s != "" && |s| <= |rest| && rest[|rest| - |s|..] == s
    requires SkipUnderscores(rest) == s
    requires word == s[..SegmentLength(s)] && left == s[SegmentLength(s)..]
    ensures Yields(crate, rest) == [word] + Yields(crate, left)
  {
    FirstWord(s);
    LastLetter(s, SegmentLength(s));
    assert rest[|rest| - 1] == s[|s| - 1];
    assert Segments(rest) == [word] + Segments(left);
    YieldsAlike(crate, rest, left, word);
  }

  lemma YieldsAlike(crate: Crate, rest: string, left: string, word: string)
    requires Segments(rest) == [word] + Segments(left) && EndsInUnderscore(rest) == EndsInUnderscore(left)
    ensures Yields(crate, rest) == [word] + Yields(crate, left)
  {
    assert ([word] + Segments(left)) + [""] == [word] + (Segments(left) + [""]);
    assert Segments(left) + [] == Segments(left) && Segments(rest) + [] == Segments(rest);
  }

  lemma LastLetter(s: string, n: nat)
    requires 0 < n <= |s| && NoUnderscore(s[..n])
    ensures EndsInUnderscore(s) == EndsInUnderscore(s[n..])
  {
    if n == |s| {
      assert s[..n] == s;
    }
  }

  /** The state in which the scan of `s` stops determines the length of the first word. */
  lemma ScanIsSegment(s: string, stop: nat, upper: nat, n: int)
    requires s != "" && s[0] != '_'
    requires upper <= stop <= |s|
    requires forall j :: 0 <= j < upper ==> IsUpper(s[j])
    requires forall j :: upper <= j < stop ==> IsOther(s[j])
    requires upper < stop ==> upper <= 1
    requires stop == |s| ==> n == stop
    requires stop < |s| && IsUpper(s[stop]) ==> upper < stop && n == stop
    requires stop < |s| && s[stop] == '_' ==> n == stop
    requires stop < |s| && IsOther(s[stop]) ==> upper == stop > 1 && n == stop - 1
    ensures n == SegmentLength(s)
  {
    UpperRunFrom(s, upper);
    if upper <= 1 {
      OtherRunFrom(s[upper..], stop - upper);
    }
  }

  method ToSnakeCase(crate: Crate, name: string) returns (r: string)
    requires Ascii(name)
    ensures r == Join(LowerAll(Yields(crate, name)))
  {
    r := "";
    var spliter := new NameSpliter(crate, name);
    ghost var done: seq<string> := [];
    assert name[0..] == name;
    while true
      invariant spliter.Valid() && spliter.name == name && spliter.crate == crate
      invariant Yields(crate, name) == done + Yields(crate, name[spliter.pos..])
      invariant r == Terminated(LowerAll(done))
      decreases |name| - spliter.pos
    {
      var s := spliter.Next();
      if s.None? {
        assert done + [] == done;
        break;
      }
      SnakeGrows(done, s.value, Yields(crate, name[spliter.pos..]));
      r := r + Lower(s.value) + "_";
      done := done + [s.value];
    }
    TerminatedIsJoin(LowerAll(done));
    r := if r == "" then "" else r[..|r| - 1];
  }

  // The prost crate's loops also test for an empty word; `CratesAgree` shows that they never meet one.
  /** `None` stands for the panic that the compiler crate's version runs into on an empty word. */
  method ToCamelCase(crate: Crate, name: string) returns (r: Option<string>)
    requires Ascii(name)
    ensures r.Some? <==> NoneEmpty(Yields(crate, name))
    ensures r.Some? ==> r.value == CapitalizeAll(Yields(crate, name))
  {
    var camel := "";
    var spliter := new NameSpliter(crate, name);
    ghost var done: seq<string> := [];
    assert name[0..] == name;
    while true
      invariant spliter.Valid() && spliter.name == name && spliter.crate == crate
      invariant Yields(crate, name) == done + Yields(crate, name[spliter.pos..])
      invariant NoneEmpty(done) && camel == CapitalizeAll(done)
      decreases |name| - spliter.pos
    {
      var s := spliter.Next();
      if s.None? {
        assert done + [] == done;
        break;
      }
      assert (done + [s.value]) + Yields(crate, name[spliter.pos..]) == Yields(crate, name);
      if s.value == "" {
        assert Yields(crate, name)[|done|] == "";
        return None;
      }
      CapitalizeAppend(done, s.value);
      camel := camel + Capitalize(s.value);
      done := done + [s.value];
    }
    r := Some(camel);
  }

  /** Every word followed by an underscore: what the loop has pushed before the final `pop`. */
  function Terminated(words: seq<string>): string {
    if words == [] then "" else words[0] + "_" + Terminated(words[1..])
  }

  lemma {:induction false} TerminatedAppend(words: seq<string>, w: string)
    ensures Terminated(words + [w]) == Terminated(words) + w + "_"
  {
    if words == [] {
      assert Terminated([w][1..]) == "";
    } else {
      TerminatedAppend(words[1..], w);
      assert (words + [w])[1..] == words[1..] + [w] && (words + [w])[0] == words[0];
      Associate(words[0] + "_", Terminated(words[1..]), w + "_");
      Associate(Terminated(words[1..]), w, "_");
      Associate(Terminated(words), w, "_");
    }
  }

  lemma SnakeGrows(done: seq<string>, word: string, rest: seq<string>)
    ensures Terminated(LowerAll(done)) + Lower(word) + "_" == Terminated(LowerAll(done + [word]))
    ensures done + ([word] + rest) == (done + [word]) + rest
  {
    TerminatedAppend(LowerAll(done), Lower(word));
    assert LowerAll(done + [word]) == LowerAll(done) + [Lower(word)];
  }

  lemma {:induction false} TerminatedIsJoin(words: seq<string>)
    ensures Terminated(words) == if words == [] then "" else Join(words) + "_"
  {
    if |words| > 1 {
      TerminatedIsJoin(words[1..]);
    } else if |words| == 1 {
      assert Terminated(words[1..]) == "";
    }
  }

  lemma Associate(a: string, b: string, c: string)
    ensures a + (b + c) == (a + b) + c
  {
  }

  lemma {:induction false} CapitalizeAppend(words: seq<string>, w: string)
    requires NoneEmpty(words) && w != ""
    ensures NoneEmpty(words + [w]) && CapitalizeAll(words + [w]) == CapitalizeAll(words) + Capitalize(w)
  {
    if words == [] {
      assert [w][1..] == [] && words + [w] == [w];
      assert CapitalizeAll([w]) == Capitalize(w) + "";
    } else {
      CapitalizeAppend(words[1..], w);
      assert (words + [w])[1..] == words[1..] + [w] && (words + [w])[0] == words[0];
      Associate(Capitalize(words[0]), CapitalizeAll(words[1..]), Capitalize(w));
    }
  }

  // -------------------------------------------------------------- properties

  predicate NoUnderscore(s: string) {
    forall i :: 0 <= i < |s| ==> s[i] != '_'
  }

  function Flatten(words: seq<string>): string {
    if words == [] then "" else words[0] + Flatten(words[1..])
  }

  function WithoutUnderscores(s: string): string {
    if s == "" then ""
    else if s[0] == '_' then WithoutUnderscores(s[1..])
    else [s[0]] + WithoutUnderscores(s[1..])
  }

  lemma {:induction false} WithoutUnderscoresAppend(s: string, t: string)
    ensures WithoutUnderscores(s + t) == WithoutUnderscores(s) + WithoutUnderscores(t)
  {
    if s == [] {
      assert s + t == t;
    } else {
      WithoutUnderscoresAppend(s[1..], t);
      assert (s + t)[1..] == s[1..] + t && (s + t)[0] == s[0];
      Associate([s[0]], WithoutUnderscores(s[1..]), WithoutUnderscores(t));
    }
  }

  lemma {:induction false} WithoutUnderscoresKeeps(s: string)
    requires NoUnderscore(s)
    ensures WithoutUnderscores(s) == s
  {
    if s != [] {
      WithoutUnderscoresKeeps(s[1..]);
    }
  }

  lemma {:induction false} SkipKeepsLetters(s: string)
    ensures WithoutUnderscores(SkipUnderscores(s)) == WithoutUnderscores(s)
  {
    if s != [] && s[0] == '_' {
      SkipKeepsLetters(s[1..]);
    }
  }

  /** A word: non-empty, no underscore, and never two capitals followed by anything else. */
  predicate IsWord(w: string) {
    && w != "" && NoUnderscore(w)
    && (forall i :: 0 < i < |w| && IsUpper(w[i]) ==> forall j :: 0 <= j < |w| ==> IsUpper(w[j]))
  }

  /** Splitting loses and reorders nothing but underscores, and yields words only. */
  lemma {:induction false} SegmentsPartitionName(name: string)
    ensures Flatten(Segments(name)) == WithoutUnderscores(name)
    ensures forall i :: 0 <= i < |Segments(name)| ==> IsWord(Segments(name)[i])
    decreases |name|
  {
    var s := SkipUnderscores(name);
    SkipKeepsLetters(name);
    if s != [] {
      var n := SegmentLength(s);
      SegmentsPartitionName(s[n..]);
      assert s == s[..n] + s[n..];
      WithoutUnderscoresAppend(s[..n], s[n..]);
      FirstWord(s);
      WithoutUnderscoresKeeps(s[..n]);
    }
  }

  lemma FirstWord(s: string)
    requires s != "" && s[0] != '_'
    ensures IsWord(s[..SegmentLength(s)])
  {
    var upper, n := UpperRun(s), SegmentLength(s);
    var w := s[..n];
    UpperRunCapitals(s);
    if upper <= 1 {
      OtherRunOthers(s[upper..]);
      assert forall i :: upper <= i < n ==> w[i] == s[upper..][i - upper] && IsOther(w[i]);
    } else {
      assert forall i :: 0 <= i < n ==> IsUpper(w[i]);
    }
  }

  predicate IsLowerWord(w: string) {
    w != "" && forall i :: 0 <= i < |w| ==> IsOther(w[i])
  }

  lemma SplitFirst(w: string, rest: string)
    requires IsLowerWord(w) && (rest != "" ==> rest[0] == '_')
    ensures Segments(w + rest) == [w] + Segments(rest)
  {
    var joined := w + rest;
    assert joined[0] == w[0];
    OtherRunFrom(joined, |w|);
    assert joined[0..] == joined && SegmentLength(joined) == |w|;
    assert joined[..|w|] == w && joined[|w|..] == rest;
  }

  lemma SkipOne(s: string)
    ensures Segments("_" + s) == Segments(s)
  {
    assert ("_" + s)[1..] == s;
  }

  lemma EndOfJoin(w: string, rest: string)
    requires rest != "" && !EndsInUnderscore(rest)
    ensures !EndsInUnderscore(w + "_" + rest)
  {
    assert (w + "_" + rest)[|w + "_" + rest| - 1] == rest[|rest| - 1];
  }

  predicate SplitsBack(joined: string, words: seq<string>) {
    Segments(joined) == words && !EndsInUnderscore(joined) && (words != [] ==> joined != "")
  }

  lemma SplitOne(w: string)
    requires IsLowerWord(w)
    ensures SplitsBack(w, [w])
  {
    SplitFirst(w, "");
    assert w + "" == w && Segments("") == [];
  }

  lemma SplitOneMore(w: string, joined: string, words: seq<string>)
    requires IsLowerWord(w) && words != [] && SplitsBack(joined, words)
    ensures SplitsBack(w + "_" + joined, [w] + words)
  {
    SplitFirst(w, "_" + joined);
    SkipOne(joined);
    EndOfJoin(w, joined);
    assert w + ("_" + joined) == w + "_" + joined;
  }

  /** Words without capitals survive being joined and split again. */
  lemma {:induction false} SplitJoin(words: seq<string>)
    requires forall i :: 0 <= i < |words| ==> IsLowerWord(words[i])
    ensures SplitsBack(Join(words), words)
  {
    if words == [] {
      assert Segments("") == [];
    } else if |words| == 1 {
      SplitOne(words[0]);
      assert words == [words[0]];
    } else {
      SplitJoin(words[1..]);
      SplitOneMore(words[0], Join(words[1..]), words[1..]);
      assert words == [words[0]] + words[1..];
    }
  }

  lemma LowerWordsAreLower(name: string)
    ensures forall i :: 0 <= i < |Segments(name)| ==> IsLowerWord(LowerAll(Segments(name))[i])
  {
    SegmentsPartitionName(name);
    var words := Segments(name);
    forall i | 0 <= i < |words|
      ensures IsLowerWord(Lower(words[i]))
    {
      assert IsWord(words[i]);
    }
  }

  function SnakeCase(name: string): string {
    Join(LowerAll(Yields(Prost, name)))
  }

  function CamelCase(name: string): string {
    SegmentsPartitionName(name);
    CapitalizeAll(Yields(Prost, name))
  }

  lemma SnakeCaseIdempotent(name: string)
    ensures SnakeCase(SnakeCase(name)) == SnakeCase(name)
  {
    LowerWordsAreLower(name);
    var words := LowerAll(Segments(name));
    SplitJoin(words);
    assert Yields(Prost, name) == Segments(name);
    assert Yields(Prost, SnakeCase(name)) == words;
    assert forall i :: 0 <= i < |words| ==> Lower(words[i]) == words[i];
    assert LowerAll(words) == words;
  }

  /** Going through snake case first does not change the camel-case name. */
  lemma CamelOfSnake(name: string)
    ensures CamelCase(SnakeCase(name)) == CamelCase(name)
  {
    SegmentsPartitionName(name);
    LowerWordsAreLower(name);
    var words := Segments(name);
    SplitJoin(LowerAll(words));
    assert Yields(Prost, name) == words;
    assert Yields(Prost, SnakeCase(name)) == LowerAll(words);
    CapitalizeLower(words);
  }

  lemma {:induction false} CapitalizeLower(words: seq<string>)
    requires NoneEmpty(words)
    ensures NoneEmpty(LowerAll(words)) && CapitalizeAll(LowerAll(words)) == CapitalizeAll(words)
  {
    if words != [] {
      CapitalizeLower(words[1..]);
      assert LowerAll(words)[1..] == LowerAll(words[1..]);
      assert Lower(Lower(words[0])[1..]) == Lower(words[0][1..]);
    }
  }

  /** The two crates split alike exactly when the name does not end in an underscore. */
  lemma CratesAgree(name: string)
    ensures Yields(Compiler, name) == Yields(Prost, name) <==> !EndsInUnderscore(name)
    ensures NoneEmpty(Yields(Compiler, name)) <==> !EndsInUnderscore(name)
    ensures NoneEmpty(Yields(Prost, name))
    ensures Join(LowerAll(Yields(Compiler, name))) == SnakeCase(name)
       <==> !(EndsInUnderscore(name) && Segments(name) != [])
  {
    SegmentsPartitionName(name);
    var words := Segments(name);
    assert Yields(Prost, name) == words;
    if EndsInUnderscore(name) {
      assert Yields(Compiler, name) == words + [""];
      assert |Yields(Compiler, name)| == |words| + 1 && Yields(Compiler, name)[|words|] == "";
      assert LowerAll(words + [""]) == LowerAll(words) + [""];
      TerminatedAppend(LowerAll(words), "");
      TerminatedIsJoin(LowerAll(words));
      TerminatedIsJoin(LowerAll(words) + [""]);
    } else {
      assert Yields(Compiler, name) == words;
    }
  }
}
