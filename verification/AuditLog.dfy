/**
 The rotating audit log as a directory of line files: slot 0 is the active file, slot i the file
 rotated i times. A write is a list of atomic file steps; a crash cuts the list anywhere.
 */
module AuditLog {
  import opened Wrappers
  import AuditTrail

  /** One appended line with its length in bytes. */
  datatype Entry = Entry(line: AuditTrail.Line, bytes: nat)

  type Files = map<nat, seq<Entry>>

  datatype Op = Unlink(slot: nat) | Rename(source: nat, target: nat) | Truncate | Append(entry: Entry)

  function Apply(files: Files, op: Op): (r: Files) {
    match op
    case Unlink(slot) => files - {slot}
    case Rename(source, target) => if source in files then (files - {source})[target := files[source]] else files
    case Truncate => files[0 := []]
    case Append(entry) => files[0 := Slot(files, 0) + [entry]]
  }

  function ApplyAll(files: Files, ops: seq<Op>): (r: Files)
    decreases |ops|
  {
    if ops == [] then files else ApplyAll(Apply(files, ops[0]), ops[1..])
  }

  function Slot(files: Files, i: nat): (entries: seq<Entry>) {
    if i in files then files[i] else []
  }

  /** The lines of the first n slots in reading order, oldest first. */
  function Reading(files: Files, n: nat): (entries: seq<Entry>) {
    if n == 0 then [] else Slot(files, n - 1) + Reading(files, n - 1)
  }

  function Bytes(entries: seq<Entry>): (n: nat) {
    if entries == [] then 0 else entries[0].bytes + Bytes(entries[1..])
  }

  /******* The steps of one write *******/

  /** Moving the rotated files up, from slot i down to slot 1. */
  function ShiftOps(files: Files, i: nat): (ops: seq<Op>) {
    if i == 0 then [] else (if i in files then [Rename(i, i + 1)] else []) + ShiftOps(files, i - 1)
  }

  function RotateOps(files: Files, maxBytes: nat, retention: nat, incoming: nat): (ops: seq<Op>) {
    if 0 !in files || Bytes(files[0]) + incoming <= maxBytes then []
    else if retention <= 1 then [Truncate]
    else (if retention - 1 in files then [Unlink(retention - 1)] else []) +
         (ShiftOps(files, retention - 2) + [Rename(0, 1), Truncate])
  }

  function WriteOps(files: Files, maxBytes: nat, retention: nat, entry: Entry): (ops: seq<Op>) {
    RotateOps(files, maxBytes, retention, entry.bytes) + [Append(entry)]
  }

  /** The directory as the process sees it; `done` records every file step taken. */
  class AuditDirectory {
    var files: Files
    ghost var done: seq<Op>

    constructor ()
      ensures files == map[] && done == []
    {
      files, done := map[], [];
    }

    method Take(op: Op)
      requires op.Rename? ==> op.source in files && op.target !in files
      modifies this
      ensures files == Apply(old(files), op) && done == old(done) + [op]
    {
      files := Apply(files, op);
      done := done + [op];
    }

    method RotateAudit(maxBytes: nat, retention: nat, incoming: nat)
      requires forall i :: i in files ==> i < Kept(retention)
      modifies this
      ensures done == old(done) + RotateOps(old(files), maxBytes, retention, incoming)
      ensures files == ApplyAll(old(files), RotateOps(old(files), maxBytes, retention, incoming))
    {
      if 0 !in files || Bytes(files[0]) + incoming <= maxBytes {
        return;
      }
      if retention <= 1 {
        Take(Truncate);
        assert RotateOps(old(files), maxBytes, retention, incoming)[1..] == [];
        return;
      }
      ghost var origin, taken := files, done;
      if retention - 1 in files {
        Take(Unlink(retention - 1));
      }
      ghost var start := files;
      ghost var first := if retention - 1 in origin then [Unlink(retention - 1)] else [];
      assert done == taken + first;
      ShiftFiles(retention - 2);
      Take(Rename(0, 1));
      Take(Truncate);
      RotateResult(origin, start, retention);
      RegroupSteps(taken, first, ShiftOps(start, retention - 2), Rename(0, 1), Truncate);
    }

    /** Moves the rotated files up by one, the oldest first, into the free slot above the last. */
    method ShiftFiles(last: nat)
      requires last + 1 !in files
      modifies this
      ensures done == old(done) + ShiftOps(old(files), last) &&
              files == ApplyAll(old(files), ShiftOps(old(files), last))
      ensures 1 !in files && (0 in files <==> 0 in old(files))
    {
      ghost var start, before := files, done;
      var index := last;
      while index >= 1
        invariant 0 <= index <= last
        invariant done + ShiftOps(start, index) == before + ShiftOps(start, last)
        invariant ApplyAll(files, ShiftOps(start, index)) == ApplyAll(start, ShiftOps(start, last))
        invariant index + 1 !in files && forall i: nat :: i <= index ==> (i in files <==> i in start)
        decreases index
      {
        NextShift(start, files, done, index);
        if index in files {
          Take(Rename(index, index + 1));
        }
        index := index - 1;
      }
      assert done + ShiftOps(start, 0) == done;
    }

    /** Rotates if needed, then appends. */
    method AuditWrite(maxBytes: nat, retention: nat, entry: Entry)
      requires forall i :: i in files ==> i < Kept(retention)
      modifies this
      ensures done == old(done) + WriteOps(old(files), maxBytes, retention, entry)
      ensures files == ApplyAll(old(files), WriteOps(old(files), maxBytes, retention, entry))
    {
      RotateAudit(maxBytes, retention, entry.bytes);
      ApplyAppended(old(files), RotateOps(old(files), maxBytes, retention, entry.bytes), Append(entry));
      Take(Append(entry));
    }
  }

  /** The first of the remaining shifts, if its file is there. */
  lemma NextShift(start: Files, files: Files, done: seq<Op>, i: nat)
    requires i > 0
    ensures var first, rest := Rename(i, i + 1), ShiftOps(start, i - 1);
            if i in start then
              done + ShiftOps(start, i) == done + [first] + rest &&
              ApplyAll(files, ShiftOps(start, i)) == ApplyAll(Apply(files, first), rest)
            else ShiftOps(start, i) == rest
  {
    var rest := ShiftOps(start, i - 1);
    if i in start {
      assert ([Rename(i, i + 1)] + rest)[1..] == rest;
      assert done + ([Rename(i, i + 1)] + rest) == done + [Rename(i, i + 1)] + rest;
    } else {
      assert [] + rest == rest;
    }
  }

  lemma {:induction false} ApplyAppended(files: Files, ops: seq<Op>, op: Op)
    ensures ApplyAll(files, ops + [op]) == Apply(ApplyAll(files, ops), op)
    decreases |ops|
  {
    if ops == [] {
      assert (ops + [op])[1..] == [];
    } else {
      ApplyAppended(Apply(files, ops[0]), ops[1..], op);
      assert (ops + [op])[1..] == ops[1..] + [op];
    }
  }

  lemma RegroupSteps(d: seq<Op>, first: seq<Op>, shifted: seq<Op>, x: Op, y: Op)
    ensures d + first + shifted + [x] + [y] == d + (first + (shifted + [x, y]))
  {
  }

  /** What the whole rotation does to the files. */
  lemma RotateResult(origin: Files, start: Files, retention: nat)
    requires retention > 1 && start == if retention - 1 in origin then Apply(origin, Unlink(retention - 1)) else origin
    ensures ShiftOps(start, retention - 2) == ShiftOps(origin, retention - 2)
    ensures var first := if retention - 1 in origin then [Unlink(retention - 1)] else [];
            ApplyAll(origin, first + (ShiftOps(origin, retention - 2) + [Rename(0, 1), Truncate])) ==
            Apply(Apply(ApplyAll(start, ShiftOps(start, retention - 2)), Rename(0, 1)), Truncate)
  {
    ShiftOpsAgree(origin, start, retention - 2);
    var rest := ShiftOps(origin, retention - 2) + [Rename(0, 1), Truncate];
    LastTwo(start, ShiftOps(start, retention - 2));
    if retention - 1 in origin {
      assert ([Unlink(retention - 1)] + rest)[1..] == rest;
    } else {
      assert [] + rest == rest;
    }
  }

  lemma LastTwo(files: Files, ops: seq<Op>)
    ensures ApplyAll(files, ops + [Rename(0, 1), Truncate]) ==
            Apply(Apply(ApplyAll(files, ops), Rename(0, 1)), Truncate)
  {
    ApplyAppended(files, ops, Rename(0, 1));
    ApplyAppended(files, ops + [Rename(0, 1)], Truncate);
    assert ops + [Rename(0, 1)] + [Truncate] == ops + [Rename(0, 1), Truncate];
  }

  lemma {:induction false} ShiftOpsAgree(a: Files, b: Files, i: nat)
    requires forall j :: 1 <= j <= i ==> (j in a <==> j in b)
    ensures ShiftOps(a, i) == ShiftOps(b, i)
  {
    if i > 0 {
      ShiftOpsAgree(a, b, i - 1);
    }
  }

  /******* Every intermediate state is sound *******/

  /** How many files a retention count allows. */
  function Kept(retention: nat): (n: nat) {
    if retention <= 1 then 1 else retention
  }

  ghost predicate IsSuffix(part: seq<Entry>, whole: seq<Entry>) {
    |part| <= |whole| && part == whole[|whole| - |part|..]
  }

  /** Few enough files, and what they hold, read in order, is a suffix of everything ever appended. */
  ghost predicate Sound(files: Files, retention: nat, appended: seq<Entry>) {
    (forall i :: i in files ==> i < Kept(retention)) && IsSuffix(Reading(files, Kept(retention)), appended)
  }

  /** A rename moves an existing file to a free name. */
  predicate Harmless(files: Files, op: Op) {
    op.Rename? ==> op.source in files && op.target !in files
  }

  /** Every state along the steps is sound, and no step overwrites a file by renaming. */
  ghost predicate SoundSteps(files: Files, ops: seq<Op>, retention: nat, appended: seq<Entry>)
    decreases |ops|
  {
    Sound(files, retention, appended) &&
    (ops != [] ==> Harmless(files, ops[0]) && SoundSteps(Apply(files, ops[0]), ops[1..], retention, appended))
  }

  /** Few enough files, which read in order as the given lines. */
  ghost predicate Reads(files: Files, retention: nat, reading: seq<Entry>) {
    (forall i :: i in files ==> i < Kept(retention)) && Reading(files, Kept(retention)) == reading
  }

  /** Every state along the steps reads the same, and no step overwrites a file by renaming. */
  ghost predicate Steady(files: Files, ops: seq<Op>, retention: nat, reading: seq<Entry>)
    decreases |ops|
  {
    Reads(files, retention, reading) &&
    (ops != [] ==> Harmless(files, ops[0]) && Steady(Apply(files, ops[0]), ops[1..], retention, reading))
  }

  lemma {:induction false} ReadingUnchanged(a: Files, b: Files, n: nat)
    requires forall i :: 0 <= i < n ==> Slot(a, i) == Slot(b, i)
    ensures Reading(a, n) == Reading(b, n)
  {
    if n > 0 {
      ReadingUnchanged(a, b, n - 1);
    }
  }

  /** Moving a file to the free slot above it does not change the reading. */
  lemma {:induction false} ReadingMoved(files: Files, i: nat, n: nat)
    requires i in files && i + 1 !in files && i + 1 < n
    ensures Reading(Apply(files, Rename(i, i + 1)), n) == Reading(files, n)
  {
    var moved := Apply(files, Rename(i, i + 1));
    if n == i + 2 {
      ReadingUnchanged(files, moved, i);
      TwoSlots(files, i);
      TwoSlots(moved, i);
    } else {
      ReadingMoved(files, i, n - 1);
    }
  }

  lemma TwoSlots(files: Files, i: nat)
    requires Slot(files, i) == [] || Slot(files, i + 1) == []
    ensures Reading(files, i + 2) ==
            (if Slot(files, i + 1) == [] then Slot(files, i) else Slot(files, i + 1)) + Reading(files, i)
  {
    var below := Reading(files, i);
    assert Reading(files, i + 1) == Slot(files, i) + below;
    assert Reading(files, i + 2) == Slot(files, i + 1) + (Slot(files, i) + below);
    if Slot(files, i + 1) == [] {
      assert [] + (Slot(files, i) + below) == Slot(files, i) + below;
    } else {
      assert [] + below == below;
    }
  }

  lemma SuffixOfSuffix(a: seq<Entry>, b: seq<Entry>, c: seq<Entry>)
    requires IsSuffix(b + a, c)
    ensures IsSuffix(a, c)
  {
    assert a == (b + a)[|b|..];
  }

  /** Moving a file up to a free slot within the count keeps the reading. */
  lemma MoveReads(files: Files, i: nat, retention: nat, reading: seq<Entry>)
    requires i + 2 <= retention && Reads(files, retention, reading) && i in files && i + 1 !in files
    ensures Reads(Apply(files, Rename(i, i + 1)), retention, reading) && Harmless(files, Rename(i, i + 1))
  {
    ReadingMoved(files, i, retention);
  }

  lemma SteadyFirst(files: Files, op: Op, ops: seq<Op>, retention: nat, reading: seq<Entry>)
    requires Reads(files, retention, reading) && Harmless(files, op) &&
             Steady(Apply(files, op), ops, retention, reading)
    ensures Steady(files, [op] + ops, retention, reading)
  {
    assert ([op] + ops)[1..] == ops;
  }

  /** The active file moves up and is made anew. */
  lemma LastStepsSteady(files: Files, retention: nat, reading: seq<Entry>)
    requires 2 <= retention && Reads(files, retention, reading) && 0 in files && 1 !in files
    ensures Steady(files, [Rename(0, 1), Truncate], retention, reading)
  {
    var moved := Apply(files, Rename(0, 1));
    var emptied := Apply(moved, Truncate);
    MoveReads(files, 0, retention, reading);
    ReadingUnchanged(moved, emptied, retention);
    assert Steady(emptied, [], retention, reading);
    assert [Truncate] == [Truncate] + [];
    SteadyFirst(moved, Truncate, [], retention, reading);
    assert [Rename(0, 1)] + [Truncate] == [Rename(0, 1), Truncate];
    SteadyFirst(files, Rename(0, 1), [Truncate], retention, reading);
  }

  lemma {:induction false} ShiftSteady(origin: Files, files: Files, i: nat, retention: nat, reading: seq<Entry>)
    requires i + 2 <= retention && Reads(files, retention, reading) && 0 in files && i + 1 !in files
    requires forall j :: j <= i ==> (j in files <==> j in origin)
    ensures Steady(files, ShiftOps(origin, i) + [Rename(0, 1), Truncate], retention, reading)
    decreases i
  {
    var last := [Rename(0, 1), Truncate];
    if i == 0 {
      assert [] + last == last;
      LastStepsSteady(files, retention, reading);
    } else if i in files {
      MoveReads(files, i, retention, reading);
      ShiftSteady(origin, Apply(files, Rename(i, i + 1)), i - 1, retention, reading);
      SteadyFirst(files, Rename(i, i + 1), ShiftOps(origin, i - 1) + last, retention, reading);
      FirstThenRest(Rename(i, i + 1), ShiftOps(origin, i - 1), last);
    } else {
      ShiftSteady(origin, files, i - 1, retention, reading);
      assert [] + ShiftOps(origin, i - 1) == ShiftOps(origin, i - 1);
    }
  }

  lemma FirstThenRest(first: Op, middle: seq<Op>, last: seq<Op>)
    ensures [first] + middle + last == [first] + (middle + last)
  {
  }

  /** The reading is the oldest file that may be kept, and what the others hold. */
  lemma OldestFirst(files: Files, retention: nat)
    ensures Reading(files, Kept(retention)) ==
            Slot(files, Kept(retention) - 1) + Reading(files, Kept(retention) - 1)
  {
  }

  /** After the first of the steps the files read as given, and go on doing so. */
  ghost predicate Begins(files: Files, ops: seq<Op>, retention: nat, reading: seq<Entry>) {
    ops != [] && Harmless(files, ops[0]) && Steady(Apply(files, ops[0]), ops[1..], retention, reading)
  }

  lemma SteadyBegins(files: Files, ops: seq<Op>, retention: nat, reading: seq<Entry>)
    requires ops != [] && Steady(files, ops, retention, reading)
    ensures Begins(files, ops, retention, reading)
  {
  }

  lemma FirstBegins(files: Files, op: Op, ops: seq<Op>, retention: nat, reading: seq<Entry>)
    requires Harmless(files, op) && Steady(Apply(files, op), ops, retention, reading)
    ensures Begins(files, [op] + ops, retention, reading)
  {
    assert ([op] + ops)[1..] == ops;
  }

  /** The steps of a rotation that keeps more than one file. */
  lemma ShiftingBegins(files: Files, retention: nat)
    requires retention > 1 && 0 in files && forall i :: i in files ==> i < retention
    ensures var first := if retention - 1 in files then [Unlink(retention - 1)] else [];
            Begins(files, first + (ShiftOps(files, retention - 2) + [Rename(0, 1), Truncate]), retention,
                   Reading(files, retention - 1))
  {
    var rest := Reading(files, retention - 1);
    var steps := ShiftOps(files, retention - 2) + [Rename(0, 1), Truncate];
    if retention - 1 in files {
      UnlinkReads(files, retention);
      ShiftSteady(files, Apply(files, Unlink(retention - 1)), retention - 2, retention, rest);
      FirstBegins(files, Unlink(retention - 1), steps, retention, rest);
    } else {
      OldestFirst(files, retention);
      assert [] + rest == rest && [] + steps == steps;
      ShiftSteady(files, files, retention - 2, retention, rest);
      SteadyBegins(files, steps, retention, rest);
    }
  }

  /** The first step of a rotation gives up the oldest file, if there is one; the others read on. */
  lemma FirstStepReads(files: Files, maxBytes: nat, retention: nat, incoming: nat)
    requires forall i :: i in files ==> i < Kept(retention)
    requires 0 in files && Bytes(files[0]) + incoming > maxBytes
    ensures Begins(files, RotateOps(files, maxBytes, retention, incoming), retention,
                   Reading(files, Kept(retention) - 1))
  {
    if retention <= 1 {
      TruncateBegins(files, retention);
      RotateOpsAre(files, maxBytes, retention, incoming, [Truncate]);
    } else {
      var first := if retention - 1 in files then [Unlink(retention - 1)] else [];
      ShiftingBegins(files, retention);
      RotateOpsAre(files, maxBytes, retention, incoming,
                   first + (ShiftOps(files, retention - 2) + [Rename(0, 1), Truncate]));
    }
  }

  lemma RotateOpsAre(files: Files, maxBytes: nat, retention: nat, incoming: nat, ops: seq<Op>)
    requires 0 in files && Bytes(files[0]) + incoming > maxBytes
    requires ops == if retention <= 1 then [Truncate] else
                    (if retention - 1 in files then [Unlink(retention - 1)] else []) +
                    (ShiftOps(files, retention - 2) + [Rename(0, 1), Truncate])
    ensures RotateOps(files, maxBytes, retention, incoming) == ops
  {
  }

  lemma TruncateBegins(files: Files, retention: nat)
    requires retention <= 1 && forall i :: i in files ==> i < Kept(retention)
    ensures Begins(files, [Truncate], retention, Reading(files, 0))
  {
    OldestFirst(Apply(files, Truncate), retention);
    FirstBegins(files, Truncate, [], retention, Reading(files, 0));
    assert [Truncate] + [] == [Truncate];
  }

  lemma UnlinkReads(files: Files, retention: nat)
    requires retention > 1 && forall i :: i in files ==> i < Kept(retention)
    ensures Reads(Apply(files, Unlink(retention - 1)), retention, Reading(files, retention - 1))
  {
    var left := Apply(files, Unlink(retention - 1));
    ReadingUnchanged(files, left, retention - 1);
    OldestFirst(left, retention);
    assert [] + Reading(left, retention - 1) == Reading(left, retention - 1);
  }

  /** The active file is there, and the incoming bytes would take it over the limit. */
  predicate Overflows(files: Files, maxBytes: nat, incoming: nat) {
    0 in files && Bytes(files[0]) + incoming > maxBytes
  }

  /** What a write has given up after n of its steps: the oldest file's lines, once an overflow has begun to rotate. */
  function GivenUp(files: Files, maxBytes: nat, retention: nat, incoming: nat, n: nat): (entries: seq<Entry>) {
    if n > 0 && Overflows(files, maxBytes, incoming) then Slot(files, Kept(retention) - 1) else []
  }

  lemma {:induction false} SteadyPrefix(files: Files, ops: seq<Op>, n: nat, retention: nat, reading: seq<Entry>)
    requires Steady(files, ops, retention, reading) && n <= |ops|
    ensures Reads(ApplyAll(files, ops[..n]), retention, reading)
    decreases n
  {
    if n > 0 {
      SteadyPrefix(Apply(files, ops[0]), ops[1..], n - 1, retention, reading);
      assert ops[..n][1..] == ops[1..][..n - 1];
    }
  }

  /** However far a rotation has come, what is left reads on where the lines given up end. */
  lemma RotateReads(files: Files, maxBytes: nat, retention: nat, incoming: nat, n: nat)
    requires forall i :: i in files ==> i < Kept(retention)
    requires n <= |RotateOps(files, maxBytes, retention, incoming)|
    ensures var ops := RotateOps(files, maxBytes, retention, incoming);
            Reading(files, Kept(retention)) ==
            GivenUp(files, maxBytes, retention, incoming, n) + Reading(ApplyAll(files, ops[..n]), Kept(retention))
  {
    var ops := RotateOps(files, maxBytes, retention, incoming);
    if n == 0 {
      assert ops[..0] == [];
      assert [] + Reading(files, Kept(retention)) == Reading(files, Kept(retention));
    } else {
      FirstStepReads(files, maxBytes, retention, incoming);
      SteadyPrefix(Apply(files, ops[0]), ops[1..], n - 1, retention, Reading(files, Kept(retention) - 1));
      assert ops[..n][1..] == ops[1..][..n - 1];
      OldestFirst(files, retention);
    }
  }

  /**
   A write, cut after any number of its file steps, gives up exactly the lines of the oldest file that
   may be kept, and that only once its rotation has begun; everything else can be read as before, with
   the new line behind it if the write was not cut.
   */
  lemma WriteGivesUpOldest(files: Files, maxBytes: nat, retention: nat, entry: Entry, n: nat)
    requires forall i :: i in files ==> i < Kept(retention)
    requires n <= |WriteOps(files, maxBytes, retention, entry)|
    ensures var ops := WriteOps(files, maxBytes, retention, entry);
            Reading(files, Kept(retention)) + (if n == |ops| then [entry] else []) ==
            GivenUp(files, maxBytes, retention, entry.bytes, n) +
            Reading(ApplyAll(files, ops[..n]), Kept(retention))
  {
    var rotate := RotateOps(files, maxBytes, retention, entry.bytes);
    var ops := WriteOps(files, maxBytes, retention, entry);
    if n <= |rotate| {
      RotateReads(files, maxBytes, retention, entry.bytes, n);
      assert ops[..n] == rotate[..n];
      assert Reading(files, Kept(retention)) + [] == Reading(files, Kept(retention));
    } else {
      var gone := GivenUp(files, maxBytes, retention, entry.bytes, |rotate|);
      RotateReads(files, maxBytes, retention, entry.bytes, |rotate|);
      assert rotate[..|rotate|] == rotate && ops[..n] == ops;
      ApplyAppended(files, rotate, Append(entry));
      ReadingAppended(ApplyAll(files, rotate), entry, Kept(retention));
      MoveBracket(gone, Reading(ApplyAll(files, rotate), Kept(retention)), [entry]);
    }
  }

  lemma MoveBracket<T>(a: seq<T>, b: seq<T>, c: seq<T>)
    ensures a + b + c == a + (b + c)
  {
  }

  lemma {:induction false} SteadyIsSound(files: Files, ops: seq<Op>, retention: nat, reading: seq<Entry>,
                                         appended: seq<Entry>)
    requires Steady(files, ops, retention, reading) && IsSuffix(reading, appended)
    ensures SoundSteps(files, ops, retention, appended)
    decreases |ops|
  {
    if ops != [] {
      SteadyIsSound(Apply(files, ops[0]), ops[1..], retention, reading, appended);
    }
  }

  /** Rotation never passes through an unsound state. */
  lemma RotateSound(files: Files, maxBytes: nat, retention: nat, incoming: nat, appended: seq<Entry>)
    requires Sound(files, retention, appended)
    ensures SoundSteps(files, RotateOps(files, maxBytes, retention, incoming), retention, appended)
  {
    var ops := RotateOps(files, maxBytes, retention, incoming);
    if ops != [] {
      var rest := Reading(files, Kept(retention) - 1);
      FirstStepReads(files, maxBytes, retention, incoming);
      OldestFirst(files, retention);
      SuffixOfSuffix(rest, Slot(files, Kept(retention) - 1), appended);
      SteadyIsSound(Apply(files, ops[0]), ops[1..], retention, rest, appended);
    }
  }

  lemma {:induction false} SoundPrefix(files: Files, ops: seq<Op>, n: nat, retention: nat, appended: seq<Entry>)
    requires SoundSteps(files, ops, retention, appended) && n <= |ops|
    ensures Sound(ApplyAll(files, ops[..n]), retention, appended)
    ensures n < |ops| ==> Harmless(ApplyAll(files, ops[..n]), ops[n])
    decreases n
  {
    if n > 0 {
      SoundPrefix(Apply(files, ops[0]), ops[1..], n - 1, retention, appended);
      assert ops[..n][1..] == ops[1..][..n - 1];
    }
  }

  lemma {:induction false} ReadingAppended(files: Files, entry: Entry, n: nat)
    requires n > 0
    ensures Reading(Apply(files, Append(entry)), n) == Reading(files, n) + [entry]
  {
    var after := Apply(files, Append(entry));
    if n == 1 {
      assert Reading(files, 0) == [] && Reading(after, 0) == [];
    } else {
      ReadingAppended(files, entry, n - 1);
      assert Slot(after, n - 1) == Slot(files, n - 1);
    }
  }

  lemma AppendSound(files: Files, retention: nat, appended: seq<Entry>, entry: Entry)
    requires Sound(files, retention, appended)
    ensures Sound(Apply(files, Append(entry)), retention, appended + [entry])
  {
    ReadingAppended(files, entry, Kept(retention));
  }

  /**
   One write, cut after any number of its file steps: the files stay sound, no rename overwrites,
   and the appended line is there exactly when the write was not cut.
   */
  lemma CutWriteSound(files: Files, maxBytes: nat, retention: nat, entry: Entry, appended: seq<Entry>, n: nat)
    requires Sound(files, retention, appended) && n <= |WriteOps(files, maxBytes, retention, entry)|
    ensures var ops := WriteOps(files, maxBytes, retention, entry);
            Sound(ApplyAll(files, ops[..n]), retention, if n == |ops| then appended + [entry] else appended) &&
            (n < |ops| ==> Harmless(ApplyAll(files, ops[..n]), ops[n]))
  {
    var rotate := RotateOps(files, maxBytes, retention, entry.bytes);
    var ops := WriteOps(files, maxBytes, retention, entry);
    RotateSound(files, maxBytes, retention, entry.bytes, appended);
    if n <= |rotate| {
      SoundPrefix(files, rotate, n, retention, appended);
      assert ops[..n] == rotate[..n];
    } else {
      SoundPrefix(files, rotate, |rotate|, retention, appended);
      assert rotate[..|rotate|] == rotate && ops[..n] == ops;
      ApplyAppended(files, rotate, Append(entry));
      AppendSound(ApplyAll(files, rotate), retention, appended, entry);
    }
  }

  /******* Whole histories with crashes *******/

  /** One attempted write: its line, and after how many file steps the process died, if it did. */
  datatype Attempt = Attempt(entry: Entry, cut: nat)

  function StepsTaken(files: Files, maxBytes: nat, retention: nat, a: Attempt): (ops: seq<Op>) {
    var ops := WriteOps(files, maxBytes, retention, a.entry);
    if a.cut < |ops| then ops[..a.cut] else ops
  }

  function FilesAfter(maxBytes: nat, retention: nat, attempts: seq<Attempt>): (files: Files) {
    if attempts == [] then map[]
    else
      var before := FilesAfter(maxBytes, retention, attempts[..|attempts| - 1]);
      ApplyAll(before, StepsTaken(before, maxBytes, retention, attempts[|attempts| - 1]))
  }

  /** Every line whose append took place, in order. */
  function Appended(maxBytes: nat, retention: nat, attempts: seq<Attempt>): (entries: seq<Entry>) {
    if attempts == [] then []
    else
      var before := attempts[..|attempts| - 1];
      var last := attempts[|attempts| - 1];
      Appended(maxBytes, retention, before) +
      if last.cut < |WriteOps(FilesAfter(maxBytes, retention, before), maxBytes, retention, last.entry)|
      then [] else [last.entry]
  }

  /** However often the process dies, and wherever, the log on disk is an ordered suffix of history. */
  lemma {:induction false} LogIsSuffixOfHistory(maxBytes: nat, retention: nat, attempts: seq<Attempt>)
    ensures Sound(FilesAfter(maxBytes, retention, attempts), retention, Appended(maxBytes, retention, attempts))
  {
    if attempts == [] {
      EmptyReading(Kept(retention));
    } else {
      var before, last := attempts[..|attempts| - 1], attempts[|attempts| - 1];
      LogIsSuffixOfHistory(maxBytes, retention, before);
      var files := FilesAfter(maxBytes, retention, before);
      var ops := WriteOps(files, maxBytes, retention, last.entry);
      var n := if last.cut < |ops| then last.cut else |ops|;
      CutWriteSound(files, maxBytes, retention, last.entry, Appended(maxBytes, retention, before), n);
      assert ops[..|ops|] == ops;
    }
  }

  lemma {:induction false} EmptyReading(n: nat)
    ensures Reading(map[], n) == []
  {
    if n > 0 {
      EmptyReading(n - 1);
    }
  }

  /******* The byte limit *******/

  lemma {:induction false} BytesAppended(entries: seq<Entry>, entry: Entry)
    ensures Bytes(entries + [entry]) == Bytes(entries) + entry.bytes
  {
    if entries == [] {
      assert [entry][1..] == [];
    } else {
      BytesAppended(entries[1..], entry);
      assert (entries + [entry])[1..] == entries[1..] + [entry];
    }
  }

  lemma {:induction false} EndsEmpty(files: Files, ops: seq<Op>)
    requires ops != [] && ops[|ops| - 1] == Truncate
    ensures Slot(ApplyAll(files, ops), 0) == []
  {
    assert ops == ops[..|ops| - 1] + [Truncate];
    ApplyAppended(files, ops[..|ops| - 1], Truncate);
  }

  /** What is in a slot, if anything. */
  function At(files: Files, i: nat): (r: Option<seq<Entry>>) {
    if i in files then Some(files[i]) else None
  }

  /** What shifting slots 1 to i up by one leaves in slot j. */
  function Shifted(files: Files, i: nat, j: nat): (r: Option<seq<Entry>>) {
    if j == 1 then None else if 2 <= j <= i + 1 then At(files, j - 1) else At(files, j)
  }

  lemma {:induction false} ShiftMoves(origin: Files, files: Files, i: nat)
    requires i + 1 !in files && forall j :: 0 <= j <= i ==> (j in files <==> j in origin)
    ensures forall j: nat :: At(ApplyAll(files, ShiftOps(origin, i)), j) == Shifted(files, i, j)
    decreases i
  {
    if i > 0 {
      var next := if i in files then Apply(files, Rename(i, i + 1)) else files;
      NextShift(origin, files, [], i);
      ShiftMoves(origin, next, i - 1);
      var r := ApplyAll(files, ShiftOps(origin, i));
      assert r == ApplyAll(next, ShiftOps(origin, i - 1));
      forall j: nat ensures At(r, j) == Shifted(files, i, j) {
        assert At(r, j) == Shifted(next, i - 1, j);
      }
    }
  }

  /** The last two steps of a rotation on shifted files. */
  lemma LastMoves(files: Files, shifted: Files, retention: nat)
    requires retention > 1 && 0 in files && forall i :: i in files ==> i < retention - 1
    requires forall j: nat :: At(shifted, j) == Shifted(files, retention - 2, j)
    ensures var r := Apply(Apply(shifted, Rename(0, 1)), Truncate);
            At(r, 0) == Some([]) &&
            forall i: nat :: i >= 1 ==> At(r, i) == if i < retention then At(files, i - 1) else None
  {
    var r := Apply(Apply(shifted, Rename(0, 1)), Truncate);
    assert At(shifted, 0) == Shifted(files, retention - 2, 0);
    forall i: nat | i >= 1 ensures At(r, i) == if i < retention then At(files, i - 1) else None {
      assert At(shifted, i) == Shifted(files, retention - 2, i);
    }
  }

  lemma RotateMoves(files: Files, maxBytes: nat, retention: nat, incoming: nat)
    requires Overflows(files, maxBytes, incoming) && retention > 1 && forall i :: i in files ==> i < retention
    ensures var r := ApplyAll(files, RotateOps(files, maxBytes, retention, incoming));
            At(r, 0) == Some([]) &&
            forall i: nat :: i >= 1 ==> At(r, i) == if i < retention then At(files, i - 1) else None
  {
    var start := if retention - 1 in files then Apply(files, Unlink(retention - 1)) else files;
    var first := if retention - 1 in files then [Unlink(retention - 1)] else [];
    RotateResult(files, start, retention);
    RotateOpsAre(files, maxBytes, retention, incoming,
                 first + (ShiftOps(files, retention - 2) + [Rename(0, 1), Truncate]));
    ShiftMoves(start, start, retention - 2);
    LastMoves(start, ApplyAll(start, ShiftOps(start, retention - 2)), retention);
    forall j: nat | j + 1 < retention ensures At(start, j) == At(files, j) {
    }
  }

  /**
   What a write does to the files: without an overflow it appends and nothing else; with one, every kept
   file moves one number up, or goes if it is the only one kept, and the line starts a new active file.
   */
  lemma WriteExactly(files: Files, maxBytes: nat, retention: nat, entry: Entry)
    requires forall i :: i in files ==> i < Kept(retention)
    ensures var ops := WriteOps(files, maxBytes, retention, entry);
            var r := ApplyAll(files, ops);
            if 0 !in files || Bytes(files[0]) + entry.bytes <= maxBytes
            then ops == [Append(entry)] && r == files[0 := Slot(files, 0) + [entry]]
            else At(r, 0) == Some([entry]) &&
                 forall i: nat :: i >= 1 ==> At(r, i) == if i < retention then At(files, i - 1) else None
  {
    var rotate := RotateOps(files, maxBytes, retention, entry.bytes);
    ApplyAppended(files, rotate, Append(entry));
    if !Overflows(files, maxBytes, entry.bytes) {
      assert rotate == [] && ApplyAll(files, rotate) == files;
      assert [] + [Append(entry)] == [Append(entry)];
    } else if retention <= 1 {
      RotateOpsAre(files, maxBytes, retention, entry.bytes, [Truncate]);
      assert [Truncate][1..] == [];
      assert ApplyAll(files, rotate) == files[0 := []];
      assert [] + [entry] == [entry];
    } else {
      RotateMoves(files, maxBytes, retention, entry.bytes);
      AppendMoves(ApplyAll(files, rotate), entry);
    }
  }

  lemma AppendMoves(files: Files, entry: Entry)
    requires At(files, 0) == Some([])
    ensures At(Apply(files, Append(entry)), 0) == Some([entry])
    ensures forall i: nat :: i >= 1 ==> At(Apply(files, Append(entry)), i) == At(files, i)
  {
    assert [] + [entry] == [entry];
  }

  /** The bytes of a file are the sum over its lines. */
  lemma BytesAddUp(entries: seq<Entry>, entry: Entry)
    ensures Bytes([]) == 0 && Bytes(entries + [entry]) == Bytes(entries) + entry.bytes
  {
    BytesAppended(entries, entry);
  }

  /** A write that is not cut leaves the active file within the limit, or holding exactly its own line. */
  lemma ActiveWithinLimit(files: Files, maxBytes: nat, retention: nat, entry: Entry)
    ensures var active := Slot(ApplyAll(files, WriteOps(files, maxBytes, retention, entry)), 0);
            Bytes(active) <= maxBytes || active == [entry]
  {
    var rotate := RotateOps(files, maxBytes, retention, entry.bytes);
    ApplyAppended(files, rotate, Append(entry));
    BytesAppended(Slot(files, 0), entry);
    if rotate != [] {
      EndsEmpty(files, rotate);
    }
  }
}
