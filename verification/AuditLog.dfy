/** The audit log and its rotated files. */
module AuditLog {
  import opened Wrappers

  /** A file is its lines. */
  type File = seq<string>

  /** The log directory: `audit.log`, and the slots `audit.log.1`, `audit.log.2`, … up to the number kept. */
  datatype Disk = Disk(log: File, rolled: seq<Option<File>>)

  /** Bytes on disk: every line ends in a newline. */
  function Size(lines: File): nat {
    if lines == [] then 0 else Size(lines[..|lines| - 1]) + |lines[|lines| - 1]| + 1
  }

  function Lines(f: Option<File>): File {
    if f.Some? then f.value else []
  }

  /** Everything in the directory, oldest first: the highest slot down to slot 1, then the log. */
  function Kept(log: File, rolled: seq<Option<File>>): File {
    if rolled == [] then log else Lines(rolled[|rolled| - 1]) + Kept(log, rolled[..|rolled| - 1])
  }

  /** The directory after dropping the last slot, moving the others up and starting a fresh log. */
  function Rotated(d: Disk): Disk {
    Disk([], if d.rolled == [] then [] else [Some(d.log)] + d.rolled[..|d.rolled| - 1])
  }

  /** The directory after one line. */
  function Written(d: Disk, limit: nat, line: string): Disk {
    var appended := d.(log := d.log + [line]);
    if Size(appended.log) > limit then Rotated(appended) else appended
  }

  function WrittenAll(d: Disk, limit: nat, lines: seq<string>): Disk {
    if lines == [] then d else Written(WrittenAll(d, limit, lines[..|lines| - 1]), limit, lines[|lines| - 1])
  }

  // ---------------------------------------------------------------- the sink

  class AuditSink {
    var log: File
    const rolled: array<Option<File>>
    const limit: nat

    ghost function OnDisk(): Disk
      reads this, rolled
    {
      Disk(log, rolled[..])
    }

    /** Open (or create) the log for appending in a directory that may already hold files. */
    constructor (existing: Option<File>, slots: array<Option<File>>, rotateSizeMb: nat)
      ensures limit == rotateSizeMb * 1024 * 1024 && rolled == slots
      ensures OnDisk() == Disk(Lines(existing), slots[..])
    {
      log, rolled, limit := Lines(existing), slots, rotateSizeMb * 1024 * 1024;
    }

    /** Append a line; roll the file once it outgrows the limit. */
    method WriteLine(line: string)
      modifies this, rolled
      ensures OnDisk() == Written(old(OnDisk()), limit, line)
    {
      log := log + [line];
      if Size(log) > limit {
        Rotate();
      }
    }

    /** Remove the last slot, then move each slot one up, highest first, then the log into slot 1. */
    method Rotate()
      modifies this, rolled
      ensures OnDisk() == Rotated(old(OnDisk()))
    {
      if rolled.Length > 0 {
        rolled[rolled.Length - 1] := None;
        var i := rolled.Length - 1;
        while i > 0
          invariant 0 <= i < rolled.Length && log == old(log)
          invariant rolled[..i] == old(rolled[..i]) && rolled[i] == None
          invariant rolled[i + 1..] == old(rolled[i..rolled.Length - 1])
        {
          if rolled[i - 1].Some? {
            rolled[i] := rolled[i - 1];
            rolled[i - 1] := None;
          }
          i := i - 1;
        }
        rolled[0] := Some(log);
        assert rolled[..] == [Some(log)] + rolled[1..];
        assert old(rolled[..])[..rolled.Length - 1] == old(rolled[0..rolled.Length - 1]);
      }
      log := [];
    }
  }

  // ---------------------------------------------------------------- the size of a log

  lemma {:induction false} SizeAdds(a: File, b: File)
    ensures Size(a + b) == Size(a) + Size(b)
  {
    if b == [] {
      assert a + b == a;
    } else {
      SizeAdds(a, b[..|b| - 1]);
      assert (a + b)[..|a + b| - 1] == a + b[..|b| - 1];
    }
  }

  /** A line takes its characters and a newline, files add up, and a line rotates the log exactly if it takes it over
      the limit: the log is then empty and the old one with the line fills slot 1, if there is one. */
  lemma {:induction false} RotatesIff(d: Disk, limit: nat, line: string)
    ensures Size([]) == 0 && Size([line]) == |line| + 1 && Size(d.log + [line]) == Size(d.log) + |line| + 1
    ensures Size(d.log) + |line| + 1 <= limit ==> Written(d, limit, line) == Disk(d.log + [line], d.rolled)
    ensures Size(d.log) + |line| + 1 > limit ==>
              && Written(d, limit, line).log == [] && |Written(d, limit, line).rolled| == |d.rolled|
              && (|d.rolled| > 0 ==> Written(d, limit, line).rolled[0] == Some(d.log + [line]))
              && (forall i :: 1 <= i < |d.rolled| ==> Written(d, limit, line).rolled[i] == d.rolled[i - 1])
  {
    SizeAdds(d.log, [line]);
    assert [line][..0] == [];
  }

  // ---------------------------------------------------------------- what is kept

  /** `a` is `b` without its first lines. */
  predicate IsSuffix(a: File, b: File) {
    |a| <= |b| && b[|b| - |a|..] == a
  }

  lemma {:induction false} SuffixChain(a: File, b: File, c: File, more: File)
    requires IsSuffix(a, b + more) && IsSuffix(b, c)
    ensures IsSuffix(a, c + more)
  {
    var front := c[..|c| - |b|];
    assert c == front + b;
    assert c + more == front + (b + more);
  }

  /** Moving the log into the first slot does not change what the directory holds. */
  lemma {:induction false} KeptShifted(log: File, rolled: seq<Option<File>>)
    ensures Kept([], [Some(log)] + rolled) == Kept(log, rolled)
  {
    var shifted := [Some(log)] + rolled;
    if rolled == [] {
      assert shifted[..0] == [];
    } else {
      KeptShifted(log, rolled[..|rolled| - 1]);
      assert shifted[..|shifted| - 1] == [Some(log)] + rolled[..|rolled| - 1];
    }
  }

  lemma {:induction false} KeptAppended(log: File, line: string, rolled: seq<Option<File>>)
    ensures Kept(log + [line], rolled) == Kept(log, rolled) + [line]
  {
    if rolled != [] {
      KeptAppended(log, line, rolled[..|rolled| - 1]);
    }
  }

  /** What a rotation drops: the last slot, or the log itself if no file is kept. */
  function Dropped(d: Disk): File {
    if d.rolled == [] then d.log else Lines(d.rolled[|d.rolled| - 1])
  }

  /** A rotation drops exactly that, and keeps the rest in order. */
  lemma {:induction false} RotationDropsOldest(d: Disk)
    ensures Dropped(d) + Kept(Rotated(d).log, Rotated(d).rolled) == Kept(d.log, d.rolled)
  {
    if d.rolled != [] {
      KeptShifted(d.log, d.rolled[..|d.rolled| - 1]);
    }
  }

  lemma {:induction false} WriteKeepsSuffix(d: Disk, limit: nat, line: string)
    ensures var r := Written(d, limit, line); IsSuffix(Kept(r.log, r.rolled), Kept(d.log, d.rolled) + [line])
  {
    var appended := d.(log := d.log + [line]);
    KeptAppended(d.log, line, d.rolled);
    if Size(appended.log) > limit {
      RotationDropsOldest(appended);
    }
  }

  /** Audit rotation keeps a suffix: after any number of lines, from any directory, what the files hold in order
      is the tail of everything ever written. */
  lemma {:induction false} KeptIsSuffix(d: Disk, limit: nat, lines: seq<string>)
    ensures var r := WrittenAll(d, limit, lines); IsSuffix(Kept(r.log, r.rolled), Kept(d.log, d.rolled) + lines)
  {
    var all := Kept(d.log, d.rolled);
    if lines == [] {
      assert all + lines == all;
    } else {
      var front, line := lines[..|lines| - 1], lines[|lines| - 1];
      var before, after := WrittenAll(d, limit, front), WrittenAll(d, limit, lines);
      KeptIsSuffix(d, limit, front);
      WriteKeepsSuffix(before, limit, line);
      SuffixChain(Kept(after.log, after.rolled), Kept(before.log, before.rolled), all + front, [line]);
      assert (all + front) + [line] == all + lines;
    }
  }

  // ---------------------------------------------------------------- shape and size

  /** A rolled file outgrew the limit, and only with its last line. */
  predicate Tight(lines: File, limit: nat) {
    lines != [] && Size(lines[..|lines| - 1]) <= limit < Size(lines)
  }

  /** Slots 1 to `n` are in use and no other; each holds a tight file, and the log is within the limit. */
  ghost predicate Tidy(d: Disk, limit: nat, n: nat) {
    && n <= |d.rolled| && Size(d.log) <= limit
    && (forall i :: 0 <= i < n ==> d.rolled[i].Some? && Tight(d.rolled[i].value, limit))
    && (forall i :: n <= i < |d.rolled| ==> d.rolled[i].None?)
  }

  /** The slots in use after one more line. */
  function SlotsAfter(d: Disk, limit: nat, line: string, n: nat): nat {
    if Size(d.log + [line]) > limit && n < |d.rolled| then n + 1 else n
  }

  lemma {:induction false} WriteKeepsTidy(d: Disk, limit: nat, line: string, n: nat)
    requires Tidy(d, limit, n)
    ensures Tidy(Written(d, limit, line), limit, SlotsAfter(d, limit, line, n))
  {
    assert (d.log + [line])[..|d.log|] == d.log;
  }

  /** From a tidy directory, after any lines: at most the kept number of rolled files, numbered without gaps, each
      over the limit by no more than its last line, and a log within the limit. */
  lemma {:induction false} AlwaysTidy(d: Disk, limit: nat, n: nat, lines: seq<string>) returns (m: nat)
    requires Tidy(d, limit, n)
    ensures Tidy(WrittenAll(d, limit, lines), limit, m) && |WrittenAll(d, limit, lines).rolled| == |d.rolled|
  {
    if lines == [] {
      m := n;
    } else {
      var before := WrittenAll(d, limit, lines[..|lines| - 1]);
      m := AlwaysTidy(d, limit, n, lines[..|lines| - 1]);
      WriteKeepsTidy(before, limit, lines[|lines| - 1], m);
      m := SlotsAfter(before, limit, lines[|lines| - 1], m);
    }
  }

  /** Nothing is lost while a slot is free. */
  lemma {:induction false} NothingLostYet(d: Disk, limit: nat, line: string, n: nat)
    requires Tidy(d, limit, n) && n < |d.rolled|
    ensures var r := Written(d, limit, line); Kept(r.log, r.rolled) == Kept(d.log, d.rolled) + [line]
  {
    var appended := d.(log := d.log + [line]);
    KeptAppended(d.log, line, d.rolled);
    if Size(appended.log) > limit {
      RotationDropsOldest(appended);
    }
  }
}
