/**
 The bounded reader of the daily log files (src/obs/log-reader.ts). A file is its bytes; `parse`
 gives the record of a non-empty line, if the line is one JSON object. Decoding from UTF-8 happens
 line by line inside `parse`, which is the same because no other character contains a newline byte.
 */
module LogTail {
  import opened Wrappers

  const NEWLINE: Byte := 10

  // ---- lines and records ----

  /** The pieces between newlines; there is always at least one. */
  function SplitLines(text: seq<Byte>): (lines: seq<seq<Byte>>)
    ensures |lines| > 0
  {
    if |text| == 0 then [[]] else Extended(SplitLines(text[..|text| - 1]), text[|text| - 1])
  }

  /** One more character: a newline starts a new piece, any other one belongs to the last piece. */
  function Extended(lines: seq<seq<Byte>>, c: Byte): (r: seq<seq<Byte>>)
    requires |lines| > 0
    ensures |r| > 0
  {
    if c == NEWLINE then lines + [[]] else lines[..|lines| - 1] + [lines[|lines| - 1] + [c]]
  }

  function JoinLines(lines: seq<seq<Byte>>): seq<Byte>
    requires |lines| > 0
  {
    if |lines| == 1 then lines[0]
    else JoinLines(lines[..|lines| - 1]) + [NEWLINE] + lines[|lines| - 1]
  }

  predicate OneLine(line: seq<Byte>) { NEWLINE !in line }

  lemma ExtendedExact(lines: seq<seq<Byte>>, c: Byte)
    requires |lines| > 0 && forall i :: 0 <= i < |lines| ==> OneLine(lines[i])
    ensures JoinLines(Extended(lines, c)) == JoinLines(lines) + [c]
    ensures forall i :: 0 <= i < |Extended(lines, c)| ==> OneLine(Extended(lines, c)[i])
  {
    var next := Extended(lines, c);
    if c == NEWLINE {
      assert next[..|next| - 1] == lines;
    } else {
      assert next[..|next| - 1] == lines[..|lines| - 1];
      assert OneLine(next[|next| - 1]);
    }
  }

  lemma SplitSnoc(text: seq<Byte>, c: Byte)
    ensures SplitLines(text + [c]) == Extended(SplitLines(text), c)
  {
    assert (text + [c])[..|text|] == text;
  }

  /** Splitting loses nothing and leaves no newline inside a piece. */
  lemma {:induction false} SplitExact(text: seq<Byte>)
    ensures JoinLines(SplitLines(text)) == text
    ensures forall i :: 0 <= i < |SplitLines(text)| ==> OneLine(SplitLines(text)[i])
  {
    if |text| == 0 {
      assert SplitLines(text) == [[]] && text == [];
    } else {
      hide SplitLines, Extended, JoinLines, OneLine;
      var front, c := text[..|text| - 1], text[|text| - 1];
      assert text == front + [c];
      SplitExact(front);
      SplitSnoc(front, c);
      ExtendedExact(SplitLines(front), c);
    }
  }

  lemma Regroup<T>(a: seq<T>, b: seq<T>, c: seq<T>)
    ensures a + b + c == a + (b + c)
  {
  }

  lemma ExtendedConcat(a: seq<seq<Byte>>, b: seq<seq<Byte>>, c: Byte)
    requires |b| > 0
    ensures Extended(a + b, c) == a + Extended(b, c)
  {
    if c != NEWLINE { assert (a + b)[..|a + b| - 1] == a + b[..|b| - 1]; }
  }

  /** A newline separates what is before it from what is after it. */
  lemma {:induction false} SplitAtNewline(a: seq<Byte>, b: seq<Byte>)
    ensures SplitLines(a + [NEWLINE] + b) == SplitLines(a) + SplitLines(b)
  {
    var text := a + [NEWLINE];
    if |b| == 0 {
      SplitSnoc(a, NEWLINE);
      assert text + b == text && b == [];
    } else {
      hide SplitLines, Extended;
      var front, c := b[..|b| - 1], b[|b| - 1];
      SplitAtNewline(a, front);
      SplitSnoc(text + front, c);
      SplitSnoc(front, c);
      ExtendedConcat(SplitLines(a), SplitLines(front), c);
      assert b == front + [c];
      Regroup(text, front, [c]);
    }
  }

  function RecordOf<R>(line: seq<Byte>, parse: seq<Byte> -> Option<R>): seq<R> {
    if |line| == 0 then [] else match parse(line) case Some(r) => [r] case None => []
  }

  /** The records of the lines, in order; a line without one is skipped. */
  function Parsed<R>(lines: seq<seq<Byte>>, parse: seq<Byte> -> Option<R>): seq<R> {
    if |lines| == 0 then [] else Parsed(lines[..|lines| - 1], parse) + RecordOf(lines[|lines| - 1], parse)
  }

  lemma {:induction false} ParsedConcat<R>(a: seq<seq<Byte>>, b: seq<seq<Byte>>, parse: seq<Byte> -> Option<R>)
    ensures Parsed(a + b, parse) == Parsed(a, parse) + Parsed(b, parse)
  {
    if |b| == 0 {
      assert a + b == a;
    } else {
      var front, r := b[..|b| - 1], RecordOf(b[|b| - 1], parse);
      assert (a + b)[..|a + b| - 1] == a + front;
      assert Parsed(a + b, parse) == Parsed(a + front, parse) + r && Parsed(b, parse) == Parsed(front, parse) + r;
      hide Parsed, RecordOf;
      ParsedConcat(a, front, parse);
      Regroup(Parsed(a, parse), Parsed(front, parse), r);
    }
  }

  /** All records of a text, oldest first. */
  function Records<R>(text: seq<Byte>, parse: seq<Byte> -> Option<R>): seq<R> { Parsed(SplitLines(text), parse) }

  lemma RecordsAtNewline<R>(a: seq<Byte>, b: seq<Byte>, parse: seq<Byte> -> Option<R>)
    ensures Records(a + [NEWLINE] + b, parse) == Records(a, parse) + Records(b, parse)
  {
    SplitAtNewline(a, b);
    ParsedConcat(SplitLines(a), SplitLines(b), parse);
  }

  lemma NoRecords<R>(parse: seq<Byte> -> Option<R>)
    ensures Records([], parse) == []
  {
    assert SplitLines([]) == [[]];
    assert Parsed([[]], parse) == Parsed([[]][..0], parse) + RecordOf([], parse);
  }

  // ---- the window on one file ----

  function IndexOfNewline(text: seq<Byte>, from: nat): (i: Option<nat>)
    requires from <= |text|
    ensures i.None? <==> forall k :: from <= k < |text| ==> text[k] != NEWLINE
    ensures i.Some? ==> from <= i.value < |text| && text[i.value] == NEWLINE
    ensures i.Some? ==> forall k :: from <= k < i.value ==> text[k] != NEWLINE
    decreases |text| - from
  {
    if from == |text| then None else if text[from] == NEWLINE then Some(from) else IndexOfNewline(text, from + 1)
  }

  function WindowStart(size: nat, maxBytes: nat): nat { if size > maxBytes then size - maxBytes else 0 }

  /** The part of the window from which lines are read: a cut window loses everything up to its first newline. */
  function WindowText(file: seq<Byte>, maxBytes: nat): seq<Byte> {
    var start := WindowStart(|file|, maxBytes);
    var window := file[start..];
    if start == 0 then window
    else match IndexOfNewline(window, 0) case Some(nl) => window[nl + 1..] case None => []
  }

  lemma WindowCases(file: seq<Byte>, maxBytes: nat)
    ensures var start := WindowStart(|file|, maxBytes);
            var nl := IndexOfNewline(file[start..], 0);
            WindowText(file, maxBytes)
            == if start == 0 then file else if nl.Some? then file[start..][nl.value + 1..] else []
  {
    hide IndexOfNewline;
    assert file[0..] == file;
  }

  /** The specification of reading one file; a file that cannot be opened is None. */
  function Tail<R>(file: Option<seq<Byte>>, maxBytes: nat, parse: seq<Byte> -> Option<R>): seq<R> {
    if file.None? then [] else Records(WindowText(file.value, maxBytes), parse)
  }

  method ReadTailFile<R>(file: Option<seq<Byte>>, maxBytes: nat, parse: seq<Byte> -> Option<R>) returns (recs: seq<R>)
    ensures recs == Tail(file, maxBytes, parse)
  {
    if file.None? { return []; }
    hide Parsed, SplitLines, IndexOfNewline;
    WindowCases(file.value, maxBytes);
    hide WindowText;
    var size := |file.value|;
    if size == 0 {
      NoRecords(parse);
      return [];
    }
    var start := if size > maxBytes then size - maxBytes else 0;
    var text := file.value[start..];
    if start > 0 {
      var nl := IndexOfNewline(text, 0);
      text := if nl.Some? then text[nl.value + 1..] else [];
    }
    assert text == WindowText(file.value, maxBytes);
    recs := ParseLines(SplitLines(text), parse);
  }

  method ParseLines<R>(lines: seq<seq<Byte>>, parse: seq<Byte> -> Option<R>) returns (recs: seq<R>)
    ensures recs == Parsed(lines, parse)
  {
    recs := [];
    for i := 0 to |lines|
      invariant recs == Parsed(lines[..i], parse)
    {
      assert lines[..i + 1][..i] == lines[..i];
      if |lines[i]| == 0 { continue; }
      var rec := parse(lines[i]);
      if rec.Some? { recs := recs + [rec.value]; }
    }
    assert lines[..|lines|] == lines;
  }

  /** What the window leaves out of a file, up to and including the newline before the first line read. */
  function Dropped(file: seq<Byte>, maxBytes: nat): nat {
    var start := WindowStart(|file|, maxBytes);
    if start == 0 then 0
    else match IndexOfNewline(file[start..], 0) case Some(nl) => start + nl + 1 case None => |file|
  }

  /**
   For every file and window the tail is the end of the file's records: what it misses are the records
   of the dropped part. A file that fits loses nothing, and past the start of the window at most one
   line is dropped.
   */
  lemma TailIsSuffix<R>(file: seq<Byte>, maxBytes: nat, parse: seq<Byte> -> Option<R>)
    ensures Dropped(file, maxBytes) <= |file|
    ensures Records(file, parse) == Records(file[..Dropped(file, maxBytes)], parse) + Tail(Some(file), maxBytes, parse)
    ensures |file| <= maxBytes ==> Dropped(file, maxBytes) == 0
    ensures forall k :: WindowStart(|file|, maxBytes) <= k < Dropped(file, maxBytes) - 1 ==> file[k] != NEWLINE
  {
    hide Records, IndexOfNewline;
    WindowCases(file, maxBytes);
    hide WindowText;
    var start := WindowStart(|file|, maxBytes);
    NoRecords(parse);
    assert file[..|file|] == file && file[..0] == [];
    if start > 0 {
      match IndexOfNewline(file[start..], 0)
      case None =>
        assert forall k :: start <= k < |file| ==> file[k] == file[start..][k - start];
      case Some(nl) =>
        assert forall k :: start <= k <= start + nl ==> file[k] == file[start..][k - start];
        RecordsAfterCut(file, start, nl, parse);
    }
  }

  lemma RecordsAfterCut<R>(file: seq<Byte>, start: nat, nl: nat, parse: seq<Byte> -> Option<R>)
    requires start + nl < |file| && file[start + nl] == NEWLINE
    ensures Records(file, parse) == Records(file[..start + nl + 1], parse) + Records(file[start..][nl + 1..], parse)
  {
    hide Records;
    var before, after := file[..start + nl], file[start..][nl + 1..];
    NoRecords(parse);
    assert after == file[start + nl + 1..];
    assert file == before + [NEWLINE] + after;
    assert file[..start + nl + 1] == before + [NEWLINE] + [];
    RecordsAtNewline(before, after, parse);
    RecordsAtNewline(before, [], parse);
  }

  /** A file's tail is complete exactly when the dropped part holds no record, as when the file fits. */
  lemma TailCompleteExactly<R>(file: seq<Byte>, maxBytes: nat, parse: seq<Byte> -> Option<R>)
    ensures Dropped(file, maxBytes) <= |file|
    ensures Tail(Some(file), maxBytes, parse) == Records(file, parse)
            <==> Records(file[..Dropped(file, maxBytes)], parse) == []
    ensures |file| <= maxBytes ==> Tail(Some(file), maxBytes, parse) == Records(file, parse)
  {
    hide Records, Tail, Dropped;
    TailIsSuffix(file, maxBytes, parse);
    NoRecords(parse);
    var dropped := Records(file[..Dropped(file, maxBytes)], parse);
    assert |Records(file, parse)| == |dropped| + |Tail(Some(file), maxBytes, parse)|;
    assert file[..0] == [];
  }

  // ---- the newest records over several files ----

  function Reverse<R>(s: seq<R>): (r: seq<R>)
    ensures |r| == |s|
  { if |s| == 0 then [] else [s[|s| - 1]] + Reverse(s[..|s| - 1]) }

  lemma {:induction false} ReverseConcat<R>(a: seq<R>, b: seq<R>)
    ensures Reverse(a + b) == Reverse(b) + Reverse(a)
  {
    if |b| == 0 {
      assert a + b == a;
    } else {
      var front, x := b[..|b| - 1], b[|b| - 1];
      assert (a + b)[..|a + b| - 1] == a + front;
      assert Reverse(a + b) == [x] + Reverse(a + front) && Reverse(b) == [x] + Reverse(front);
      hide Reverse;
      ReverseConcat(a, front);
      Regroup([x], Reverse(front), Reverse(a));
    }
  }

  function Take<R>(s: seq<R>, n: nat): seq<R> { if n < |s| then s[..n] else s }

  /** The tails of the files, newest record of the newest file first. `files` is newest first. */
  function NewestFirst<R>(files: seq<Option<seq<Byte>>>, maxBytes: nat, parse: seq<Byte> -> Option<R>): seq<R> {
    if |files| == 0 then []
    else NewestFirst(files[..|files| - 1], maxBytes, parse) + Reverse(Tail(files[|files| - 1], maxBytes, parse))
  }

  function FirstFiles<F>(files: seq<F>, maxFiles: nat): seq<F> { Take(files, maxFiles) }

  /** The 32-bit truncation of `limit | 0`, for whole numbers. */
  function ToInt32(n: int): int {
    var m := n % 0x1_0000_0000;
    if m >= 0x8000_0000 then m - 0x1_0000_0000 else m
  }

  function Limit(asked: int): nat { if ToInt32(asked) > 0 then ToInt32(asked) else 0 }

  /** A limit is taken as it stands exactly in the non-negative 32-bit range. */
  lemma LimitExactly(asked: int)
    ensures Limit(asked) == asked <==> 0 <= asked < 0x8000_0000
  {
  }

  /** Reads the files newest first and stops as soon as the limit is reached. */
  method ReadLogTail<R>(files: seq<Option<seq<Byte>>>, asked: int, maxBytes: nat, maxFiles: nat,
                        parse: seq<Byte> -> Option<R>)
      returns (out: seq<R>)
    ensures out == Take(NewestFirst(FirstFiles(files, maxFiles), maxBytes, parse), Limit(asked))
  {
    var limit := Limit(asked);
    if limit == 0 { return []; }
    out := [];
    var picked := FirstFiles(files, maxFiles);
    var n := 0;
    while n < |picked|
      invariant 0 <= n <= |picked|
      invariant out == Take(NewestFirst(picked[..n], maxBytes, parse), limit)
    {
      if |out| >= limit { break; }
      var recs := ReadTailFile(picked[n], maxBytes, parse);
      assert picked[..n + 1][..n] == picked[..n];
      out := PushNewestFirst(out, recs, limit);
      n := n + 1;
    }
    StoppedEarly(picked, n, maxBytes, parse, limit);
    assert picked[..|picked|] == picked;
  }

  /** The inner loop: pushes `recs` from its end until the limit is reached. */
  method PushNewestFirst<R>(before: seq<R>, recs: seq<R>, limit: nat) returns (out: seq<R>)
    requires |before| <= limit
    ensures out == Take(before + Reverse(recs), limit)
  {
    out := before;
    assert recs[..|recs|] == recs;
    var i := |recs| - 1;
    while i >= 0 && |out| < limit
      invariant -1 <= i < |recs|
      invariant |out| <= limit && out + Reverse(recs[..i + 1]) == before + Reverse(recs)
    {
      assert recs[..i + 1][..i] == recs[..i];
      out := out + [recs[i]];
      i := i - 1;
    }
  }

  lemma {:induction false} MoreFilesExtend<R>(files: seq<Option<seq<Byte>>>, n: nat, maxBytes: nat,
                                              parse: seq<Byte> -> Option<R>)
    requires n <= |files|
    ensures NewestFirst(files[..n], maxBytes, parse) <= NewestFirst(files, maxBytes, parse)
    decreases |files|
  {
    if n == |files| {
      assert files[..n] == files;
    } else {
      MoreFilesExtend(files[..|files| - 1], n, maxBytes, parse);
      assert files[..|files| - 1][..n] == files[..n];
    }
  }

  /** Once the limit is reached, the files not read cannot change the answer. */
  lemma StoppedEarly<R>(files: seq<Option<seq<Byte>>>, n: nat, maxBytes: nat, parse: seq<Byte> -> Option<R>, limit: nat)
    requires n <= |files| && (|NewestFirst(files[..n], maxBytes, parse)| >= limit || n == |files|)
    ensures Take(NewestFirst(files[..n], maxBytes, parse), limit) == Take(NewestFirst(files, maxBytes, parse), limit)
  {
    hide NewestFirst;
    MoreFilesExtend(files, n, maxBytes, parse);
    assert n == |files| ==> files[..n] == files;
  }

  // ---- agreement with reading everything ----

  /** All records of the files from the oldest file to the newest. */
  function Chronicle<R>(files: seq<Option<seq<Byte>>>, parse: seq<Byte> -> Option<R>): seq<R> {
    if |files| == 0 then []
    else
      var oldest := files[|files| - 1];
      (if oldest.Some? then Records(oldest.value, parse) else []) + Chronicle(files[..|files| - 1], parse)
  }

  predicate Fits(file: Option<seq<Byte>>, maxBytes: nat) { file.Some? ==> |file.value| <= maxBytes }

  lemma {:induction false} FittingFilesAreRead<R>(files: seq<Option<seq<Byte>>>, maxBytes: nat,
                                                  parse: seq<Byte> -> Option<R>)
    requires forall i :: 0 <= i < |files| ==> Fits(files[i], maxBytes)
    ensures NewestFirst(files, maxBytes, parse) == Reverse(Chronicle(files, parse))
  {
    if |files| > 0 {
      var newer, oldest := files[..|files| - 1], files[|files| - 1];
      FittingFilesAreRead(newer, maxBytes, parse);
      if oldest.Some? { TailCompleteExactly(oldest.value, maxBytes, parse); }
      hide Records, Tail;
      ReverseConcat(if oldest.Some? then Records(oldest.value, parse) else [], Chronicle(newer, parse));
    }
  }

  /** When every file fits and none is left out, the answer is the newest records of the whole log, newest first. */
  lemma AgreesWithWholeLog<R>(files: seq<Option<seq<Byte>>>, asked: int, maxBytes: nat, maxFiles: nat,
                              parse: seq<Byte> -> Option<R>)
    requires |files| <= maxFiles && forall i :: 0 <= i < |files| ==> Fits(files[i], maxBytes)
    ensures var answer, log := Take(NewestFirst(FirstFiles(files, maxFiles), maxBytes, parse), Limit(asked)),
            Reverse(Chronicle(files, parse));
            answer == if 0 <= asked < 0x8000_0000 then Take(log, asked) else Take(log, Limit(asked))
  {
    LimitExactly(asked);
    FittingFilesAreRead(files, maxBytes, parse);
  }

  /** The newer files' records are the end of the chronicle. */
  lemma {:induction false} ChronicleEnds<R>(files: seq<Option<seq<Byte>>>, n: nat, parse: seq<Byte> -> Option<R>)
    requires n <= |files|
    ensures Reverse(Chronicle(files[..n], parse)) <= Reverse(Chronicle(files, parse))
    decreases |files|
  {
    if n == |files| {
      assert files[..n] == files;
    } else {
      var newer, oldest := files[..|files| - 1], files[|files| - 1];
      ChronicleEnds(newer, n, parse);
      assert newer[..n] == files[..n];
      hide Records;
      ReverseConcat(if oldest.Some? then Records(oldest.value, parse) else [], Chronicle(newer, parse));
    }
  }

  /**
   Up to the first file that was cut, and including the tail of that file, the answer has no gap: it
   starts with the newest records of the whole log, whatever the older files hold.
   */
  lemma NoGapUpToFirstCut<R>(files: seq<Option<seq<Byte>>>, n: nat, limit: nat, maxBytes: nat, maxFiles: nat,
                             parse: seq<Byte> -> Option<R>)
    requires n < |files| && n < maxFiles && forall i :: 0 <= i < n ==> Fits(files[i], maxBytes)
    ensures var whole := NewestFirst(files[..n + 1], maxBytes, parse);
            && Take(whole, limit) <= Take(NewestFirst(FirstFiles(files, maxFiles), maxBytes, parse), limit)
            && Take(whole, limit) <= Take(Reverse(Chronicle(files, parse)), limit)
  {
    var picked := FirstFiles(files, maxFiles);
    assert picked[..n + 1] == files[..n + 1];
    hide NewestFirst, Chronicle, Reverse, FirstFiles, Take;
    var whole := NewestFirst(files[..n + 1], maxBytes, parse);
    MoreFilesExtend(picked, n + 1, maxBytes, parse);
    CutFileIsLast(files[..n + 1], maxBytes, parse);
    ChronicleEnds(files, n + 1, parse);
    TakePrefix(whole, NewestFirst(picked, maxBytes, parse), limit);
    PrefixOfPrefix(whole, Reverse(Chronicle(files[..n + 1], parse)), Reverse(Chronicle(files, parse)));
    TakePrefix(whole, Reverse(Chronicle(files, parse)), limit);
  }

  lemma PrefixOfPrefix<R>(a: seq<R>, b: seq<R>, c: seq<R>)
    requires a <= b && b <= c
    ensures a <= c
  {
    assert a == c[..|a|];
  }

  lemma TakePrefix<R>(a: seq<R>, b: seq<R>, n: nat)
    requires a <= b
    ensures Take(a, n) <= Take(b, n)
  {
  }

  lemma CutFileIsLast<R>(files: seq<Option<seq<Byte>>>, maxBytes: nat, parse: seq<Byte> -> Option<R>)
    requires |files| > 0 && forall i :: 0 <= i < |files| - 1 ==> Fits(files[i], maxBytes)
    ensures NewestFirst(files, maxBytes, parse) <= Reverse(Chronicle(files, parse))
  {
    var newer, oldest := files[..|files| - 1], files[|files| - 1];
    FittingFilesAreRead(newer, maxBytes, parse);
    hide Records, Reverse, Tail, Dropped;
    if oldest.Some? {
      TailIsSuffix(oldest.value, maxBytes, parse);
      NewestRecords(Records(oldest.value[..Dropped(oldest.value, maxBytes)], parse), Tail(oldest, maxBytes, parse),
                    Chronicle(newer, parse));
    } else {
      NoTail(oldest, maxBytes, parse);
      NewestRecords([], [], Chronicle(newer, parse));
    }
  }

  lemma NoTail<R>(file: Option<seq<Byte>>, maxBytes: nat, parse: seq<Byte> -> Option<R>)
    requires file.None?
    ensures Tail(file, maxBytes, parse) == []
  {
  }

  /** Read from the newest on, the records come before those that a cut has dropped. */
  lemma NewestRecords<R>(dropped: seq<R>, kept: seq<R>, newer: seq<R>)
    ensures Reverse(newer) + Reverse(kept) <= Reverse(dropped + kept + newer)
  {
    hide Reverse;
    ReverseConcat(dropped + kept, newer);
    ReverseConcat(dropped, kept);
    assert Reverse(newer) + (Reverse(kept) + Reverse(dropped))
        == (Reverse(newer) + Reverse(kept)) + Reverse(dropped);
  }
}
