/** The in-place argument tokeniser `StringToArgs` (commands.c:323-362).

    The raw argument string is the C string starting at some position of the
    line buffer. Its arguments are the maximal runs of bytes other than space
    and tab. The tokeniser stores a pointer to the start of each of the first
    `MaxCmdArgs` of them in `argv` and overwrites the separator that follows
    each stored argument with NUL, so that every pointer designates exactly its
    argument; a NULL entry ends the list. */
module Tokenizer {
  import opened Bytes
  import opened Definitions
  import CStrings

  predicate IsSeparator(c: byte) { c == SpaceAscii || c == TabAscii }

  /** The end (exclusive) of the run of non-separators that starts at `i`. */
  function WordEnd(s: seq<byte>, i: nat): (j: nat)
    requires i <= |s|
    ensures i <= j <= |s|
    ensures j < |s| ==> IsSeparator(s[j])
    decreases |s| - i
  {
    if i == |s| || IsSeparator(s[i]) then i else WordEnd(s, i + 1)
  }

  /** No separator lies between `i` and `WordEnd(s, i)`. */
  lemma {:induction false} WordEndRun(s: seq<byte>, i: nat)
    requires i <= |s|
    ensures forall m :: i <= m < WordEnd(s, i) ==> !IsSeparator(s[m])
    decreases |s| - i
  {
    if i < |s| && !IsSeparator(s[i]) {
      WordEndRun(s, i + 1);
    }
  }

  /** The end (exclusive) of the run of separators that starts at `i`. */
  function SkipEnd(s: seq<byte>, i: nat): (j: nat)
    requires i <= |s|
    ensures i <= j <= |s|
    ensures j < |s| ==> !IsSeparator(s[j])
    decreases |s| - i
  {
    if i == |s| || !IsSeparator(s[i]) then i else SkipEnd(s, i + 1)
  }

  /** Only separators lie between `i` and `SkipEnd(s, i)`. */
  lemma {:induction false} SkipEndRun(s: seq<byte>, i: nat)
    requires i <= |s|
    ensures forall m :: i <= m < SkipEnd(s, i) ==> IsSeparator(s[m])
    decreases |s| - i
  {
    if i < |s| && IsSeparator(s[i]) {
      SkipEndRun(s, i + 1);
    }
  }

  /** Position `m` of `s` begins a word of the suffix that starts at `i`. */
  predicate IsWordStart(s: seq<byte>, i: nat, m: int)
  {
    i <= m < |s| && !IsSeparator(s[m]) && (m == i || IsSeparator(s[m - 1]))
  }

  /** The start positions of the words of `s[i..]`, in increasing order. */
  function WordStarts(s: seq<byte>, i: nat): (ws: seq<nat>)
    requires i <= |s|
    ensures forall j :: 0 <= j < |ws| ==> i <= ws[j] < |s|
    decreases |s| - i
  {
    if i == |s| then []
    else if IsSeparator(s[i]) then WordStarts(s, i + 1)
    else [i] + WordStarts(s, WordEnd(s, i))
  }

  /** Every position `WordStarts` lists begins a word of `s[i..]`. */
  lemma {:induction false} WordStartsSound(s: seq<byte>, i: nat)
    requires i <= |s|
    ensures forall j :: 0 <= j < |WordStarts(s, i)| ==> IsWordStart(s, i, WordStarts(s, i)[j])
    decreases |s| - i
  {
    var ws := WordStarts(s, i);
    if i == |s| {
    } else if IsSeparator(s[i]) {
      WordStartsSound(s, i + 1);
      forall j | 0 <= j < |ws| ensures IsWordStart(s, i, ws[j]) {
        assert IsWordStart(s, i + 1, ws[j]);
      }
    } else {
      var e := WordEnd(s, i);
      var rest := WordStarts(s, e);
      WordStartsSound(s, e);
      assert ws == [i] + rest;
      forall j | 0 <= j < |ws| ensures IsWordStart(s, i, ws[j]) {
        if j > 0 {
          var r := rest[j - 1];
          assert ws[j] == r && IsWordStart(s, e, r) && r != e;
        }
      }
    }
  }

  /** `WordStarts` lists every position that begins a word of `s[i..]`. */
  lemma {:induction false} WordStartsComplete(s: seq<byte>, i: nat)
    requires i <= |s|
    ensures forall m :: IsWordStart(s, i, m) ==> m in WordStarts(s, i)
    decreases |s| - i
  {
    var ws := WordStarts(s, i);
    if i == |s| {
    } else if IsSeparator(s[i]) {
      WordStartsComplete(s, i + 1);
      forall m | IsWordStart(s, i, m) ensures m in ws {
        assert IsWordStart(s, i + 1, m);
      }
    } else {
      var e := WordEnd(s, i);
      var rest := WordStarts(s, e);
      WordStartsComplete(s, e);
      WordEndRun(s, i);
      assert ws == [i] + rest;
      forall m | IsWordStart(s, i, m) ensures m in ws {
        if m != i {
          assert m >= e;
          assert IsWordStart(s, e, m);
          assert m in rest;
        }
      }
    }
  }

  /** Each word `WordStarts` lists ends before the next one begins. */
  lemma {:induction false} WordStartsOrdered(s: seq<byte>, i: nat)
    requires i <= |s|
    ensures forall j, j' :: 0 <= j < j' < |WordStarts(s, i)| ==>
              WordEnd(s, WordStarts(s, i)[j]) < WordStarts(s, i)[j']
    decreases |s| - i
  {
    var ws := WordStarts(s, i);
    if i == |s| {
    } else if IsSeparator(s[i]) {
      WordStartsOrdered(s, i + 1);
    } else {
      var e := WordEnd(s, i);
      var rest := WordStarts(s, e);
      WordStartsOrdered(s, e);
      WordStartsSound(s, e);
      assert ws == [i] + rest;
      forall j, j' | 0 <= j < j' < |ws| ensures WordEnd(s, ws[j]) < ws[j'] {
        var r := rest[j' - 1];
        assert ws[j'] == r && IsWordStart(s, e, r) && r != e;
        if j > 0 {
          assert ws[j] == rest[j - 1];
        }
      }
    }
  }

  /** The words of `s`, in order. */
  function Words(s: seq<byte>): (w: seq<seq<byte>>)
  {
    var ws := WordStarts(s, 0);
    seq(|ws|, j requires 0 <= j < |ws| => s[ws[j]..WordEnd(s, ws[j])])
  }

  /** The arguments a callee receives: the first `MaxCmdArgs` words. */
  function Arguments(s: seq<byte>): seq<seq<byte>>
  {
    var w := Words(s);
    w[..Min(|w|, MaxCmdArgs)]
  }

  /** The words of `s` are non-empty, hold no separator, and are the maximal
      runs of non-separators of `s`, in order. */
  lemma WordsAreMaximalRuns(s: seq<byte>, j: nat)
    requires j < |Words(s)|
    ensures Words(s)[j] != [] && forall c :: c in Words(s)[j] ==> !IsSeparator(c)
    ensures var st := WordStarts(s, 0)[j];
      Words(s)[j] == s[st..st + |Words(s)[j]|]
      && (st == 0 || IsSeparator(s[st - 1]))
      && (st + |Words(s)[j]| == |s| || IsSeparator(s[st + |Words(s)[j]|]))
  {
    var ws := WordStarts(s, 0);
    WordStartsSound(s, 0);
    var st := ws[j];
    assert IsWordStart(s, 0, st);
    WordEndRun(s, st);
    var w := s[st..WordEnd(s, st)];
    assert Words(s)[j] == w;
    assert w[0] == s[st];
    forall c | c in w ensures !IsSeparator(c) {
      var t :| 0 <= t < |w| && w[t] == c;
      assert c == s[st + t];
    }
  }

  /** The raw string at `start` in `b`, as the tokeniser scans it. */
  function RawString(b: seq<byte>, start: nat): seq<byte>
    requires NulFrom(b, start)
  {
    CString(b, start)
  }

  /** The number of arguments the tokeniser stores. */
  function StoredCount(s: seq<byte>): nat
  {
    Min(|WordStarts(s, 0)|, MaxCmdArgs)
  }

  /** Whether the tokeniser stores a NULL entry after the last argument it
      collected: it does unless the raw string is a non-empty run of
      separators, or more than `MaxCmdArgs - 1` words are followed by more
      bytes. */
  predicate StoresTerminator(s: seq<byte>)
  {
    var ws := WordStarts(s, 0);
    if |ws| < MaxCmdArgs then |ws| > 0 || |s| == 0
    else |ws| == MaxCmdArgs && WordEnd(s, ws[MaxCmdArgs - 1]) == |s|
  }

  /** The count the tokeniser returns: the number of words, or 0 when it
      stops collecting with bytes left over. */
  function ReturnedCount(s: seq<byte>): nat
  {
    var ws := WordStarts(s, 0);
    if |ws| < MaxCmdArgs || StoresTerminator(s) then |ws| else 0
  }

  /** The index of `argv` the source writes its NULL entry to, if any. */
  function TerminatorSlot(s: seq<byte>): (r: Option<nat>)
    ensures r.Some? <==> StoresTerminator(s)
    ensures r.Some? ==> r.value == |WordStarts(s, 0)| <= MaxCmdArgs
  {
    if StoresTerminator(s) then Some(|WordStarts(s, 0)|) else None
  }

  /** As written, `argv` holds `MaxCmdArgs` entries, and a raw string of exactly
      `MaxCmdArgs` words ending at the NUL makes the tokeniser write the NULL
      entry one past its end. */
  lemma TerminatorSlotOverflows()
    ensures var s := Ascii("a b c d e");
      TerminatorSlot(s) == Some(MaxCmdArgs)
  {
    var s := Ascii("a b c d e");
    assert s == [97, 32, 98, 32, 99, 32, 100, 32, 101];
    assert WordEnd(s, 8) == 9;
    assert WordStarts(s, 8) == [8];
    assert WordStarts(s, 7) == [8];
    assert WordEnd(s, 6) == 7;
    assert WordStarts(s, 6) == [6, 8];
    assert WordStarts(s, 5) == [6, 8];
    assert WordEnd(s, 4) == 5;
    assert WordStarts(s, 4) == [4, 6, 8];
    assert WordStarts(s, 3) == [4, 6, 8];
    assert WordEnd(s, 2) == 3;
    assert WordStarts(s, 2) == [2, 4, 6, 8];
    assert WordStarts(s, 1) == [2, 4, 6, 8];
    assert WordEnd(s, 0) == 1;
    assert WordStarts(s, 0) == [0, 2, 4, 6, 8];
  }

  /** On every raw string, the NULL entry goes one past a `MaxCmdArgs`-entry
      table exactly when the string has `MaxCmdArgs` words and the last of
      them ends at the NUL. */
  lemma TerminatorSlotOverflowsExactly(s: seq<byte>)
    ensures TerminatorSlot(s) == Some(MaxCmdArgs)
      <==> |WordStarts(s, 0)| == MaxCmdArgs && WordEnd(s, WordStarts(s, 0)[MaxCmdArgs - 1]) == |s|
  {
  }

  /** `b` once the byte after each word of the raw string `s` at `start` that
      begins at one of `starts` is set to NUL: the separator the tokeniser
      overwrites, or the NUL that already ends `s`. */
  function MarkStarts(b: seq<byte>, start: nat, s: seq<byte>, starts: seq<nat>): (r: seq<byte>)
    requires start + |s| < |b|
    requires forall j :: 0 <= j < |starts| ==> starts[j] <= |s|
    ensures |r| == |b|
    decreases |starts|
  {
    if starts == [] then b
    else
      var last := |starts| - 1;
      MarkStarts(b, start, s, starts[..last])[start + WordEnd(s, starts[last]) := NUL]
  }

  /** Marking one more word marks the byte after it. */
  lemma MarkStartsSnoc(b: seq<byte>, start: nat, s: seq<byte>, starts: seq<nat>, y: nat)
    requires start + |s| < |b| && y <= |s|
    requires forall j :: 0 <= j < |starts| ==> starts[j] <= |s|
    ensures MarkStarts(b, start, s, starts + [y])
              == MarkStarts(b, start, s, starts)[start + WordEnd(s, y) := NUL]
  {
    assert (starts + [y])[..|starts|] == starts;
  }

  /** The start positions of the arguments the tokeniser stores. */
  function StoredStarts(s: seq<byte>): (r: seq<nat>)
    ensures |r| == StoredCount(s) <= MaxCmdArgs
    ensures forall j :: 0 <= j < |r| ==> r[j] == WordStarts(s, 0)[j] < |s|
  {
    WordStarts(s, 0)[..StoredCount(s)]
  }

  /** The buffer after tokenising the raw string at `start`. */
  function Tokenised(b: seq<byte>, start: nat): (r: seq<byte>)
    requires NulFrom(b, start)
  {
    var s := RawString(b, start);
    MarkStarts(b, start, s, StoredStarts(s))
  }

  /** Marking leaves every byte that is not after a marked word. */
  lemma {:induction false} MarkKeeps(b: seq<byte>, start: nat, s: seq<byte>, starts: seq<nat>, m: nat)
    requires start + |s| < |b| && m < |b|
    requires forall j :: 0 <= j < |starts| ==> starts[j] <= |s|
    requires forall j :: 0 <= j < |starts| ==> start + WordEnd(s, starts[j]) != m
    ensures MarkStarts(b, start, s, starts)[m] == b[m]
    decreases |starts|
  {
    if starts != [] {
      MarkKeeps(b, start, s, starts[..|starts| - 1], m);
    }
  }

  /** Marking puts a NUL after every marked word. */
  lemma {:induction false} MarkSets(b: seq<byte>, start: nat, s: seq<byte>, starts: seq<nat>, j: nat)
    requires start + |s| < |b| && j < |starts|
    requires forall j :: 0 <= j < |starts| ==> starts[j] <= |s|
    ensures MarkStarts(b, start, s, starts)[start + WordEnd(s, starts[j])] == NUL
    decreases |starts|
  {
    if j < |starts| - 1 {
      MarkSets(b, start, s, starts[..|starts| - 1], j);
    }
  }

  /** `a` once entry `j` is set to point at `start + starts[j]`, for each
      index `j` of `starts`. */
  function ArgvAfter(a: seq<Option<nat>>, start: nat, starts: seq<nat>): (r: seq<Option<nat>>)
    requires |starts| <= |a|
    ensures |r| == |a|
    decreases |starts|
  {
    if starts == [] then a
    else
      var last := |starts| - 1;
      ArgvAfter(a, start, starts[..last])[last := Some(start + starts[last])]
  }

  /** The pointer table the tokeniser leaves: `ArgvAfter`, followed by a NULL
      entry when `terminated`. */
  function Pointers(a: seq<Option<nat>>, start: nat, starts: seq<nat>, terminated: bool): (r: seq<Option<nat>>)
    requires |starts| < |a|
    ensures |r| == |a|
  {
    var r := ArgvAfter(a, start, starts);
    if terminated then r[|starts| := None] else r
  }

  lemma ArgvAfterSnoc(a: seq<Option<nat>>, start: nat, starts: seq<nat>, y: nat)
    requires |starts| < |a|
    ensures ArgvAfter(a, start, starts + [y]) == ArgvAfter(a, start, starts)[|starts| := Some(start + y)]
  {
    assert (starts + [y])[..|starts|] == starts;
  }

  /** Entry `j` of the table points at the `j`-th start, or is untouched. */
  lemma {:induction false} ArgvAfterAt(a: seq<Option<nat>>, start: nat, starts: seq<nat>, j: nat)
    requires |starts| <= |a| && j < |a|
    ensures ArgvAfter(a, start, starts)[j] == if j < |starts| then Some(start + starts[j]) else a[j]
    decreases |starts|
  {
    if starts != [] {
      var last := |starts| - 1;
      if j != last {
        ArgvAfterAt(a, start, starts[..last], j);
      }
    }
  }

  /** Entry `j` of the pointer table. */
  lemma PointersAt(a: seq<Option<nat>>, start: nat, starts: seq<nat>, terminated: bool, j: nat)
    requires |starts| < |a| && j < |a|
    ensures Pointers(a, start, starts, terminated)[j]
      == if j < |starts| then Some(start + starts[j])
         else if j == |starts| && terminated then None
         else a[j]
  {
    ArgvAfterAt(a, start, starts, j);
  }

  /** What one run of the tokeniser's loop yields: the word starts it stores,
      whether it stores a NULL entry after them, and the count it returns. */
  datatype ScanOutcome = ScanOutcome(stored: seq<nat>, terminated: bool, count: nat)

  /** What one round of the tokeniser's loop meets from index `x` of the raw
      string `s`, having skipped `i` separators before: so many separators
      that the skip count reaches `strsize`, the end of the string, or the
      word from `begin` to `end`. */
  datatype Round = Overrun | AtEnd | WordAt(begin: nat, end: nat)

  function RoundAt(s: seq<byte>, x: nat, i: nat, strsize: nat): (r: Round)
    requires x <= |s|
    ensures r.WordAt? ==> x <= r.begin < r.end <= |s| && r.end == WordEnd(s, r.begin)
  {
    var y := SkipEnd(s, x);
    if y > x && i + (y - x) >= strsize then Overrun
    else if y == |s| then AtEnd
    else WordAt(y, WordEnd(s, y))
  }

  /** The tokeniser's loop from index `x` of the raw string `s`, having
      skipped `i` separators and stored the word starts `stored`; `strsize`
      is the length it measured up front. */
  function Scan(s: seq<byte>, x: nat, i: nat, strsize: nat, stored: seq<nat>): (r: ScanOutcome)
    requires x <= |s| && |stored| <= MaxCmdArgs
    ensures |r.stored| <= MaxCmdArgs
    decreases MaxCmdArgs - |stored|
  {
    if |stored| >= MaxCmdArgs then ScanOutcome(stored, false, 0)
    else
      match RoundAt(s, x, i, strsize)
      case Overrun => ScanOutcome(stored, false, |stored|)
      case AtEnd => ScanOutcome(stored, true, |stored|)
      case WordAt(y, e) =>
        if e == |s| then ScanOutcome(stored + [y], true, |stored| + 1)
        else Scan(s, e + 1, i + (y - x), strsize, stored + [y])
  }

  /** Skipping separators skips no word. */
  lemma {:induction false} WordStartsSkip(s: seq<byte>, i: nat)
    requires i <= |s|
    ensures WordStarts(s, i) == WordStarts(s, SkipEnd(s, i))
    decreases |s| - i
  {
    if i < |s| && IsSeparator(s[i]) {
      WordStartsSkip(s, i + 1);
    }
  }

  /** The outcome the tokeniser's loop should reach on `s`. */
  function Expected(s: seq<byte>): ScanOutcome
  {
    ScanOutcome(StoredStarts(s), StoresTerminator(s), ReturnedCount(s))
  }

  /** The loop's state as it begins a round: the stored starts and the words
      still ahead make up all the words of `s`, and the skip count `i` stays
      below `x` once a word was stored. */
  predicate ScanReady(s: seq<byte>, x: nat, i: nat, stored: seq<nat>)
  {
    && x <= |s| && |stored| <= MaxCmdArgs
    && (forall j :: 0 <= j < |stored| ==> stored[j] < |s|)
    && WordStarts(s, 0) == stored + WordStarts(s, x)
    && (stored == [] ==> x == 0 && i == 0)
    && (stored != [] ==> i < x && WordEnd(s, stored[|stored| - 1]) < x)
  }

  lemma ScanFull(s: seq<byte>, x: nat, i: nat, stored: seq<nat>)
    requires ScanReady(s, x, i, stored) && |stored| == MaxCmdArgs
    ensures Scan(s, x, i, |s|, stored) == Expected(s)
  {
    var ws := WordStarts(s, 0);
    assert ws[..MaxCmdArgs] == stored;
    if |ws| == MaxCmdArgs {
      assert ws[MaxCmdArgs - 1] == stored[|stored| - 1];
    }
  }

  lemma ScanOverrun(s: seq<byte>, x: nat, i: nat, stored: seq<nat>)
    requires ScanReady(s, x, i, stored) && |stored| < MaxCmdArgs
    requires RoundAt(s, x, i, |s|) == Overrun
    ensures Scan(s, x, i, |s|, stored) == Expected(s)
  {
    var y := SkipEnd(s, x);
    WordStartsSkip(s, x);
    assert stored == [];
    assert WordStarts(s, 0) == [] && |s| > 0;
  }

  lemma ScanAtEnd(s: seq<byte>, x: nat, i: nat, stored: seq<nat>)
    requires ScanReady(s, x, i, stored) && |stored| < MaxCmdArgs
    requires RoundAt(s, x, i, |s|) == AtEnd
    ensures Scan(s, x, i, |s|, stored) == Expected(s)
  {
    WordStartsSkip(s, x);
    assert WordStarts(s, 0) == stored;
    if stored != [] {
      assert WordStarts(s, 0)[|stored| - 1] == stored[|stored| - 1];
    }
  }

  /** A word met in a round is the next word of `s`. */
  lemma WordsAhead(s: seq<byte>, x: nat, stored: seq<nat>, y: nat, e: nat)
    requires x <= |s| && WordStarts(s, 0) == stored + WordStarts(s, x)
    requires y == SkipEnd(s, x) < |s| && e == WordEnd(s, y)
    ensures WordStarts(s, 0) == (stored + [y]) + WordStarts(s, e)
  {
    WordStartsSkip(s, x);
    assert WordStarts(s, y) == [y] + WordStarts(s, e);
  }

  lemma ScanLastWord(s: seq<byte>, x: nat, i: nat, stored: seq<nat>, y: nat)
    requires ScanReady(s, x, i, stored) && |stored| < MaxCmdArgs
    requires RoundAt(s, x, i, |s|) == WordAt(y, |s|)
    ensures Scan(s, x, i, |s|, stored) == Expected(s)
  {
    WordsAhead(s, x, stored, y, |s|);
    var ws := WordStarts(s, 0);
    assert ws == stored + [y];
    assert ws[|stored|] == y;
  }

  lemma ScanNextWord(s: seq<byte>, x: nat, i: nat, stored: seq<nat>, y: nat, e: nat)
    requires ScanReady(s, x, i, stored) && |stored| < MaxCmdArgs
    requires RoundAt(s, x, i, |s|) == WordAt(y, e) && e < |s|
    ensures ScanReady(s, e + 1, i + (y - x), stored + [y])
    ensures Scan(s, x, i, |s|, stored) == Scan(s, e + 1, i + (y - x), |s|, stored + [y])
  {
    WordsAhead(s, x, stored, y, e);
    assert WordStarts(s, e) == WordStarts(s, e + 1);
    assert (stored + [y])[|stored|] == y;
  }

  /** Whether the loop goes on after the round from index `x`. */
  predicate Continues(s: seq<byte>, x: nat, i: nat, stored: seq<nat>)
    requires x <= |s|
  {
    |stored| < MaxCmdArgs && RoundAt(s, x, i, |s|).WordAt? && RoundAt(s, x, i, |s|).end < |s|
  }

  /** One round from a ready state: either the loop ends with `Expected`, or
      it goes on from a ready state with the same outcome. */
  lemma ScanStep(s: seq<byte>, x: nat, i: nat, stored: seq<nat>)
    requires ScanReady(s, x, i, stored)
    ensures !Continues(s, x, i, stored) ==> Scan(s, x, i, |s|, stored) == Expected(s)
    ensures Continues(s, x, i, stored) ==>
      var r := RoundAt(s, x, i, |s|);
      && ScanReady(s, r.end + 1, i + (r.begin - x), stored + [r.begin])
      && Scan(s, x, i, |s|, stored) == Scan(s, r.end + 1, i + (r.begin - x), |s|, stored + [r.begin])
  {
    var r := RoundAt(s, x, i, |s|);
    if |stored| == MaxCmdArgs {
      ScanFull(s, x, i, stored);
    } else if r.Overrun? {
      ScanOverrun(s, x, i, stored);
    } else if r.AtEnd? {
      ScanAtEnd(s, x, i, stored);
    } else if r.end == |s| {
      ScanLastWord(s, x, i, stored, r.begin);
    } else {
      ScanNextWord(s, x, i, stored, r.begin, r.end);
    }
  }

  /** From any point of the loop at which the stored starts and the words
      still ahead make up all the words, the loop reaches `Expected`. */
  lemma {:induction false} ScanFrom(s: seq<byte>, x: nat, i: nat, stored: seq<nat>)
    requires ScanReady(s, x, i, stored)
    ensures Scan(s, x, i, |s|, stored) == Expected(s)
    decreases MaxCmdArgs - |stored|
  {
    ScanStep(s, x, i, stored);
    if Continues(s, x, i, stored) {
      var r := RoundAt(s, x, i, |s|);
      ScanFrom(s, r.end + 1, i + (r.begin - x), stored + [r.begin]);
    }
  }

  /** The tokeniser's loop stores the first `MaxCmdArgs` word starts, a NULL
      entry exactly when `StoresTerminator` holds, and returns
      `ReturnedCount`. */
  lemma ScanMeetsWords(s: seq<byte>)
    ensures Scan(s, 0, 0, |s|, []) == Expected(s)
  {
    assert WordStarts(s, 0) == [] + WordStarts(s, 0);
    ScanFrom(s, 0, 0, []);
  }

  /** The raw string `s` lies at `start` in `buf` from index `x` of `s` on,
      followed by its NUL. */
  ghost predicate RawFrom(buf: array<byte>, start: nat, s: seq<byte>, x: nat)
    reads buf
  {
    NUL !in s && start + |s| < buf.Length && buf[start + |s|] == NUL
    && forall m {:trigger buf[m]} :: start + x <= m < start + |s| ==> buf[m] == s[m - start]
  }

  lemma RawAt(buf: array<byte>, start: nat)
    requires NulFrom(buf[..], start)
    ensures RawFrom(buf, start, RawString(buf[..], start), 0)
  {
    var s := RawString(buf[..], start);
    forall m | start <= m < start + |s| ensures buf[m] == s[m - start] {
      assert s[m - start] == buf[..][start + (m - start)];
    }
  }

  /** The separator-skipping loop of the tokeniser, from index `x` of the raw
      string, with `i` separators skipped so far: it stops early, and the
      tokeniser returns, once `strsize` separators have been skipped. */
  method SkipSeparators(buf: array<byte>, start: nat, ghost s: seq<byte>, x: nat, i: nat, strsize: nat)
    returns (x': nat, i': nat, stop: bool)
    requires x <= |s| && RawFrom(buf, start, s, x)
    ensures var n := SkipEnd(s, x) - x;
      && stop == (n > 0 && i + n >= strsize)
      && x' == x + (if !stop then n else if strsize <= i then 1 else strsize - i)
      && i' == i + (x' - x)
  {
    SkipEndRun(s, x);
    x' := x;
    i' := i;
    stop := false;
    while buf[start + x'] == SpaceAscii || buf[start + x'] == TabAscii
      invariant x <= x' <= SkipEnd(s, x) && i' == i + (x' - x)
      invariant x' > x ==> i' < strsize
      decreases |s| - x'
    {
      x' := x' + 1;
      i' := i' + 1;
      if i' >= strsize {
        stop := true;
        return;
      }
    }
  }

  /** The word-scanning loop of the tokeniser: the end of the word at `x`. */
  method ScanWord(buf: array<byte>, start: nat, ghost s: seq<byte>, x: nat) returns (x': nat)
    requires x <= |s| && RawFrom(buf, start, s, x)
    ensures x' == WordEnd(s, x)
  {
    WordEndRun(s, x);
    x' := x;
    while buf[start + x'] != NUL && buf[start + x'] != SpaceAscii && buf[start + x'] != TabAscii
      invariant x <= x' <= WordEnd(s, x)
      decreases |s| - x'
    {
      x' := x' + 1;
    }
  }

  /** What one round of the tokeniser's loop does to the buffer, `buf0` to
      `buf1`, and to the pointer table, `argv0` to `argv1`, when argument
      `argc` is next: by what the round meets from index `x` of the raw
      string `s` at `start`. */
  ghost predicate RoundEffect(s: seq<byte>, start: nat, strsize: nat,
                              buf0: seq<byte>, argv0: seq<Option<nat>>,
                              buf1: seq<byte>, argv1: seq<Option<nat>>,
                              argc: nat, x: nat, i: nat, x': nat, i': nat, argc': nat, finished: bool)
    requires x <= |s| && argc + 1 < |argv0| && start + |s| < |buf0|
  {
    match RoundAt(s, x, i, strsize)
    case Overrun =>
      finished && argc' == argc && buf1 == buf0 && argv1 == argv0
    case AtEnd =>
      finished && argc' == argc && buf1 == buf0 && argv1 == argv0[argc := None]
    case WordAt(y, e) =>
      && finished == (e == |s|) && argc' == argc + 1
      && buf1 == buf0[start + e := NUL]
      && argv1 == (if e == |s| then argv0[argc := Some(start + y)][argc + 1 := None]
                   else argv0[argc := Some(start + y)])
      && (e < |s| ==> x' == e + 1 && i' == i + (y - x))
  }

  /** The tokeniser's loop has stored the starts `done`, leaving the buffer
      `buf` (from `b`) and the table `argv` (from `a`); either it has finished
      with the outcome `o`, or `o` is what the rest of the loop yields from
      index `x` with `i` separators skipped. */
  ghost predicate Progress(s: seq<byte>, start: nat, strsize: nat, o: ScanOutcome,
                           b: seq<byte>, a: seq<Option<nat>>, buf: seq<byte>, argv: seq<Option<nat>>,
                           x: nat, i: nat, done: seq<nat>, finished: bool)
  {
    && start + |s| < |b| && |a| == MaxCmdArgs + 1
    && |done| <= MaxCmdArgs && (forall j :: 0 <= j < |done| ==> done[j] <= |s|)
    && buf == MarkStarts(b, start, s, done)
    && (finished ==> o.stored == done && o.count == |done| && argv == Pointers(a, start, done, o.terminated))
    && (!finished ==> x <= |s| && Scan(s, x, i, strsize, done) == o && argv == ArgvAfter(a, start, done))
  }

  /** A round that starts from unfinished progress leaves progress. */
  lemma RoundProgress(s: seq<byte>, start: nat, strsize: nat, o: ScanOutcome,
                      b: seq<byte>, a: seq<Option<nat>>,
                      buf0: seq<byte>, argv0: seq<Option<nat>>, buf1: seq<byte>, argv1: seq<Option<nat>>,
                      x: nat, i: nat, done: seq<nat>, x': nat, i': nat, argc': nat, finished: bool)
    returns (done': seq<nat>)
    requires Progress(s, start, strsize, o, b, a, buf0, argv0, x, i, done, false) && |done| < MaxCmdArgs
    requires RoundEffect(s, start, strsize, buf0, argv0, buf1, argv1, |done|, x, i, x', i', argc', finished)
    ensures Progress(s, start, strsize, o, b, a, buf1, argv1, x', i', done', finished)
    ensures argc' == |done'|
  {
    match RoundAt(s, x, i, strsize)
    case Overrun =>
      done' := done;
    case AtEnd =>
      done' := done;
    case WordAt(y, e) =>
      MarkStartsSnoc(b, start, s, done, y);
      ArgvAfterSnoc(a, start, done, y);
      done' := done + [y];
  }

  /** One round of the tokeniser's main loop over the raw string `s` at
      `start`, from index `x`: skips separators, then either stops or stores
      the word that follows as argument `argc` and overwrites the separator
      after it with NUL. */
  method CollectRound(buf: array<byte>, start: nat, ghost s: seq<byte>, strsize: nat,
                      argv: array<Option<nat>>, argc: nat, x: nat, i: nat)
    returns (x': nat, i': nat, argc': nat, finished: bool)
    requires x <= |s| && RawFrom(buf, start, s, x)
    requires argc < MaxCmdArgs && argv.Length == MaxCmdArgs + 1
    modifies buf, argv
    ensures RoundEffect(s, start, strsize, old(buf[..]), old(argv[..]), buf[..], argv[..],
                        argc, x, i, x', i', argc', finished)
    ensures !finished ==> RawFrom(buf, start, s, x')
  {
    var stop;
    x', i', stop := SkipSeparators(buf, start, s, x, i, strsize);
    argc' := argc;
    finished := true;
    if stop {
      return;
    }
    if buf[start + x'] == NUL {
      argv[argc'] := None;
      return;
    }
    // a word starts at x'
    argv[argc'] := Some(start + x');
    argc' := argc' + 1;
    var e := ScanWord(buf, start, s, x');
    if buf[start + e] == NUL {
      assert buf[..] == old(buf[..])[start + e := NUL];
      argv[argc'] := None;
      return;
    }
    buf[start + e] := NUL;
    x' := e + 1;
    finished := false;
  }

  /** The tokeniser's main loop over the raw string `s` at `start`, whose
      length `strsize` it measured beforehand: it does what `Scan` describes. */
  method CollectArguments(buf: array<byte>, start: nat, ghost s: seq<byte>, strsize: nat,
                          argv: array<Option<nat>>) returns (argc: nat, ghost stored: seq<nat>)
    requires RawFrom(buf, start, s, 0) && strsize == |s|
    requires argv.Length == MaxCmdArgs + 1
    modifies buf, argv
    ensures var o := Scan(s, 0, 0, |s|, []);
      && stored == o.stored && (forall j :: 0 <= j < |stored| ==> stored[j] <= |s|)
      && buf[..] == MarkStarts(old(buf[..]), start, s, stored)
      && argv[..] == Pointers(old(argv[..]), start, stored, o.terminated)
      && argc == o.count
  {
    ghost var b := buf[..];
    ghost var a := argv[..];
    ghost var o := Scan(s, 0, 0, |s|, []);
    ghost var done: seq<nat> := [];
    argc := 0;
    var i: nat := 0;
    var x: nat := 0;
    var finished := false;
    while !finished && argc < MaxCmdArgs
      invariant Progress(s, start, strsize, o, b, a, buf[..], argv[..], x, i, done, finished)
      invariant argc == |done|
      invariant !finished ==> RawFrom(buf, start, s, x)
      decreases MaxCmdArgs - argc, if finished then 0 else 1
    {
      ghost var buf0, argv0, x0, i0 := buf[..], argv[..], x, i;
      x, i, argc, finished := CollectRound(buf, start, s, strsize, argv, argc, x, i);
      done := RoundProgress(s, start, strsize, o, b, a, buf0, argv0, buf[..], argv[..],
                            x0, i0, done, x, i, argc, finished);
    }
    stored := done;
    if !finished {
      argc := 0;
    }
  }

  /** Tokenises the raw string at `buf[start..]` in place, storing pointers to
      its first `MaxCmdArgs` words in `argv`; returns the source's count. The
      `argv` array has room for `MaxCmdArgs + 1` entries so that the NULL entry
      after `MaxCmdArgs` arguments is in bounds. */
  method StringToArgs(buf: array<byte>, start: nat, argv: array<Option<nat>>) returns (argc: nat)
    requires NulFrom(buf[..], start)
    requires buf.Length <= 0x1_0000
    requires argv.Length == MaxCmdArgs + 1
    modifies buf, argv
    ensures var s := RawString(old(buf[..]), start);
      && buf[..] == Tokenised(old(buf[..]), start)
      && argv[..] == Pointers(old(argv[..]), start, StoredStarts(s), StoresTerminator(s))
      && argc == ReturnedCount(s)
  {
    ghost var b := buf[..];
    ghost var s := RawString(b, start);
    RawAt(buf, start);
    var strsize := CStrings.StrLen(buf, start);
    assert strsize == |s|;
    ghost var stored;
    argc, stored := CollectArguments(buf, start, s, strsize, argv);
    ScanMeetsWords(s);
  }

  /** The argument list a callee reads from `argv` at entry `j` on: the C
      strings its pointers designate, up to the first NULL entry. */
  function ArgvView(b: seq<byte>, argv: seq<Option<nat>>, j: nat): seq<seq<byte>>
    decreases |argv| - j
  {
    if j >= |argv| || argv[j].None? then []
    else [CStringAt(b, argv[j].value)] + ArgvView(b, argv, j + 1)
  }

  /** No stored word is followed by a position inside another stored word. */
  lemma NotMarkedInside(s: seq<byte>, j: nat, m: nat)
    requires j < StoredCount(s)
    requires WordStarts(s, 0)[j] <= m < WordEnd(s, WordStarts(s, 0)[j])
    ensures forall j' :: 0 <= j' < |StoredStarts(s)| ==> WordEnd(s, StoredStarts(s)[j']) != m
  {
    var ws := WordStarts(s, 0);
    var starts := StoredStarts(s);
    WordStartsOrdered(s, 0);
    forall j' | 0 <= j' < |starts| ensures WordEnd(s, starts[j']) != m {
      if j' < j {
        assert WordEnd(s, ws[j']) < ws[j];
      } else if j' > j {
        assert WordEnd(s, ws[j]) < ws[j'] <= WordEnd(s, ws[j']);
      }
    }
  }

  /** The bytes of a word of the raw string are those of the buffer. */
  lemma WordInBuffer(b: seq<byte>, start: nat, j: nat)
    requires NulFrom(b, start) && j < |Words(RawString(b, start))|
    ensures var s := RawString(b, start); var w := Words(s)[j];
      && IsCString(w)
      && forall m :: 0 <= m < |w| ==> b[start + WordStarts(s, 0)[j] + m] == w[m]
  {
    var s := RawString(b, start);
    var ws := WordStarts(s, 0);
    var w := Words(s)[j];
    assert w == s[ws[j]..WordEnd(s, ws[j])];
    forall m | 0 <= m < |w| ensures b[start + ws[j] + m] == w[m] && w[m] != NUL {
      assert w[m] == s[ws[j] + m];
    }
  }

  /** Each stored argument reads, in the tokenised buffer, as its word. */
  lemma TokenisedWord(b: seq<byte>, start: nat, j: nat)
    requires NulFrom(b, start) && j < StoredCount(RawString(b, start))
    ensures var s := RawString(b, start);
      CStringAt(Tokenised(b, start), start + WordStarts(s, 0)[j]) == Words(s)[j]
  {
    var s := RawString(b, start);
    var ws := WordStarts(s, 0);
    var starts := StoredStarts(s);
    var t := Tokenised(b, start);
    var w := Words(s)[j];
    var p := start + ws[j];
    WordInBuffer(b, start, j);
    forall m | 0 <= m < |w| ensures t[p + m] == w[m] {
      NotMarkedInside(s, j, ws[j] + m);
      MarkKeeps(b, start, s, starts, p + m);
    }
    MarkSets(b, start, s, starts, j);
    CStringIs(t, p, w);
  }

  /** A table whose first `|w|` entries designate the strings `w`, followed
      by a NULL entry, reads as `w` from entry `j` on. */
  lemma {:induction false} ArgvViewFrom(t: seq<byte>, argv: seq<Option<nat>>, w: seq<seq<byte>>, j: nat)
    requires |w| < |argv| && j <= |w| && argv[|w|] == None
    requires forall m :: 0 <= m < |w| ==> argv[m].Some? && CStringAt(t, argv[m].value) == w[m]
    ensures |ArgvView(t, argv, j)| == |w| - j
    ensures forall m :: 0 <= m < |w| - j ==> ArgvView(t, argv, j)[m] == w[j + m]
    decreases |w| - j
  {
    if j < |w| {
      ArgvViewFrom(t, argv, w, j + 1);
    }
  }

  /** After tokenising, the callee reads exactly the first `MaxCmdArgs` words
      of the raw string, provided the entry after the last argument is NULL
      when the tokeniser does not write one. */
  lemma ArgvViewOfTokenised(b: seq<byte>, start: nat, a: seq<Option<nat>>)
    requires NulFrom(b, start) && |a| == MaxCmdArgs + 1
    requires var s := RawString(b, start); StoresTerminator(s) || a[StoredCount(s)] == None
    ensures var s := RawString(b, start);
      ArgvView(Tokenised(b, start), Pointers(a, start, StoredStarts(s), StoresTerminator(s)), 0)
        == Arguments(s)
  {
    var s := RawString(b, start);
    var t := Tokenised(b, start);
    var starts := StoredStarts(s);
    var argv := Pointers(a, start, starts, StoresTerminator(s));
    var w := Arguments(s);
    assert |w| == |starts|;
    forall m | 0 <= m < |w| ensures argv[m].Some? && CStringAt(t, argv[m].value) == w[m] {
      PointersAt(a, start, starts, StoresTerminator(s), m);
      TokenisedWord(b, start, m);
    }
    PointersAt(a, start, starts, StoresTerminator(s), |w|);
    ArgvViewFrom(t, argv, w, 0);
    assert ArgvView(t, argv, 0) == w;
  }

  /** Tokenising only writes NULs: a NUL of the buffer stays a NUL. */
  lemma TokenisedKeepsNul(b: seq<byte>, start: nat, m: nat)
    requires NulFrom(b, start) && m < |b| && b[m] == NUL
    ensures Tokenised(b, start)[m] == NUL
  {
    var s := RawString(b, start);
    var starts := StoredStarts(s);
    if j :| 0 <= j < |starts| && start + WordEnd(s, starts[j]) == m {
      MarkSets(b, start, s, starts, j);
    } else {
      MarkKeeps(b, start, s, starts, m);
    }
  }

  /** The tokeniser leaves no NULL entry only when it stores no argument or
      all `MaxCmdArgs` of them. */
  lemma UnterminatedCounts(s: seq<byte>)
    requires !StoresTerminator(s)
    ensures StoredCount(s) == 0 || StoredCount(s) == MaxCmdArgs
  {
  }
}
