/** The rotating JSONL audit sink (src/audit_sink.rs). */
module JsonlSinks {
  import opened Wrappers
  import opened Primitives
  import opened Decimals

  function Sum(xs: seq<nat>): nat
  {
    if xs == [] then 0 else Sum(xs[..|xs| - 1]) + xs[|xs| - 1]
  }

  lemma SumAppend(xs: seq<nat>, x: nat)
    ensures Sum(xs + [x]) == Sum(xs) + x
  {
    assert (xs + [x])[..|xs|] == xs;
  }

  /** A file: the bytes found in it, the lengths of the lines the sink added, its mtime. */
  datatype File = File(found: nat, lines: seq<nat>, mtime: nat) {
    function Len(): nat { found + Sum(lines) }
  }

  /** The cap, as promised: past it only with the first and only line. */
  ghost predicate Capped(f: File, maxBytes: nat)
  {
    && f.Len() <= U64_MAX && (forall i | 0 <= i < |f.lines| :: f.lines[i] > 0)
    && (f.Len() <= maxBytes || f.lines == [] || (f.found == 0 && |f.lines| == 1))
  }

  lemma {:induction false} LinesWeigh(xs: seq<nat>)
    requires (forall i | 0 <= i < |xs| :: xs[i] > 0) && xs != []
    ensures Sum(xs) > 0
  {
    assert xs[|xs| - 1] > 0;
  }

  // ---- file names ----

  function Primary(stem: string, day: string): string { stem + "." + day }

  /** Candidate 0 is the dated name, candidate `i` its overflow name. */
  function Candidate(stem: string, day: string, i: nat): string
  {
    if i == 0 then Primary(stem, day) else Primary(stem, day) + "." + Digits(i)
  }

  lemma CandidatesDistinct(stem: string, day: string, i: nat, j: nat)
    requires Candidate(stem, day, i) == Candidate(stem, day, j)
    ensures i == j
  {
    var p := Primary(stem, day);
    if i > 0 && j > 0 {
      assert Candidate(stem, day, i)[|p| + 1..] == Digits(i) && Candidate(stem, day, j)[|p| + 1..] == Digits(j);
      DigitsInjective(i, j);
    }
  }

  function Matching(names: set<string>, stem: string): set<string>
  {
    set n | n in names && stem <= n
  }

  ghost function Candidates(stem: string, day: string, n: nat): set<string>
  {
    if n == 0 then {} else Candidates(stem, day, n - 1) + {Candidate(stem, day, n - 1)}
  }

  lemma {:induction false} CandidatesMembers(stem: string, day: string, n: nat)
    ensures forall c | c in Candidates(stem, day, n) :: exists i | 0 <= i < n :: c == Candidate(stem, day, i)
    ensures forall i | 0 <= i < n :: Candidate(stem, day, i) in Candidates(stem, day, n)
  {
    hide Candidate;
    if n > 0 {
      CandidatesMembers(stem, day, n - 1);
    }
  }

  lemma {:induction false} CandidatesSize(stem: string, day: string, n: nat)
    ensures |Candidates(stem, day, n)| == n
  {
    hide Candidate;
    if n > 0 {
      CandidatesSize(stem, day, n - 1);
      CandidatesMembers(stem, day, n - 1);
      var c := Candidate(stem, day, n - 1);
      if c in Candidates(stem, day, n - 1) {
        var i :| 0 <= i < n - 1 && c == Candidate(stem, day, i);
        CandidatesDistinct(stem, day, n - 1, i);
      }
    }
  }

  lemma {:induction false} SubsetSize<T>(a: set<T>, b: set<T>)
    requires a <= b
    ensures |a| <= |b|
  {
    if a != {} {
      var x :| x in a;
      SubsetSize(a - {x}, b - {x});
    }
  }

  /** Fewer matching files than candidates: one candidate is free. */
  lemma FreeCandidate(names: set<string>, stem: string, day: string, n: nat)
    requires |Matching(names, stem)| < n
    ensures exists i | 0 <= i < n :: Candidate(stem, day, i) !in names
  {
    CandidatesMembers(stem, day, n);
    CandidatesSize(stem, day, n);
    if forall i | 0 <= i < n :: Candidate(stem, day, i) in names {
      forall c | c in Candidates(stem, day, n) ensures c in Matching(names, stem) {
        var i :| 0 <= i < n && c == Candidate(stem, day, i);
        assert stem <= Candidate(stem, day, i);
      }
      SubsetSize(Candidates(stem, day, n), Matching(names, stem));
    }
  }

  const OVERFLOWS: nat := 10_000

  /** Some candidate of the day is unused: the exact condition under which a rotation does
      not fall back on a file that exists. */
  ghost predicate FreeDay(names: set<string>, stem: string, day: string)
  {
    exists i | 0 <= i <= OVERFLOWS :: Candidate(stem, day, i) !in names
  }

  /** Exactly that many matching files can already be too many at start-up: if they are the
      overflow names of the day, opening the dated file leaves no candidate free. */
  lemma StartUpCanExhaustTheDay(stem: string, day: string) returns (names: set<string>)
    ensures |Matching(names, stem)| == OVERFLOWS
    ensures FreeDay(names, stem, day) && !FreeDay(names + {Primary(stem, day)}, stem, day)
  {
    var n := OVERFLOWS + 1;
    CandidatesMembers(stem, day, n);
    CandidatesSize(stem, day, n);
    assert Candidate(stem, day, 0) in Candidates(stem, day, n);
    names := Candidates(stem, day, n) - {Primary(stem, day)};
    assert Candidate(stem, day, 0) !in names;
    forall c | c in names ensures stem <= c {
      var i :| 0 <= i < n && c == Candidate(stem, day, i);
    }
    assert Matching(names, stem) == names;
  }

  /** The first free candidate; the dated name again once all are taken. */
  method NextTarget(names: set<string>, stem: string, day: string) returns (c: string)
    ensures c !in names <==> FreeDay(names, stem, day)
    ensures c !in names ==> exists i | 0 <= i <= OVERFLOWS ::
      c == Candidate(stem, day, i) && forall j | 0 <= j < i :: Candidate(stem, day, j) in names
    ensures c in names ==> c == Primary(stem, day)
    ensures stem <= c
  {
    hide Digits;
    c := Primary(stem, day);
    assert c == Candidate(stem, day, 0);
    if c !in names {
      return;
    }
    for i := 1 to OVERFLOWS + 1
      invariant forall j | 0 <= j < i :: Candidate(stem, day, j) in names
    {
      var overflow := Candidate(stem, day, i);
      if overflow !in names {
        c := overflow;
        return;
      }
    }
  }

  // ---- oldest first ----

  type Directory = map<string, File>

  function Mtime(dir: Directory, name: string): nat { if name in dir then dir[name].mtime else 0 }

  ghost predicate Distinct(xs: seq<string>) { forall i, j | 0 <= i < j < |xs| :: xs[i] != xs[j] }

  ghost predicate OldestFirst(xs: seq<string>, dir: Directory)
  {
    forall i, j | 0 <= i < j < |xs| :: Mtime(dir, xs[i]) <= Mtime(dir, xs[j])
  }

  function InsertByTime(xs: seq<string>, x: string, dir: Directory): seq<string>
  {
    if xs == [] || Mtime(dir, xs[|xs| - 1]) <= Mtime(dir, x) then xs + [x]
    else InsertByTime(xs[..|xs| - 1], x, dir) + [xs[|xs| - 1]]
  }

  lemma {:induction false} InsertByTimeMembers(xs: seq<string>, x: string, dir: Directory)
    requires Distinct(xs) && x !in xs
    ensures var r := InsertByTime(xs, x, dir);
      |r| == |xs| + 1 && (forall y :: y in r <==> y in xs || y == x) && Distinct(r)
  {
    hide Mtime;
    var n := |xs| - 1;
    if n >= 0 && Mtime(dir, xs[n]) > Mtime(dir, x) {
      assert xs == xs[..n] + [xs[n]];
      InsertByTimeMembers(xs[..n], x, dir);
      assert xs[n] !in xs[..n];
    }
  }

  ghost predicate NoneAfter(xs: seq<string>, dir: Directory, bound: nat)
  {
    forall x | x in xs :: Mtime(dir, x) <= bound
  }

  lemma {:induction false} InsertByTimeBelow(xs: seq<string>, x: string, dir: Directory, bound: nat)
    requires Mtime(dir, x) <= bound && NoneAfter(xs, dir, bound)
    ensures NoneAfter(InsertByTime(xs, x, dir), dir, bound)
  {
    if xs != [] && Mtime(dir, xs[|xs| - 1]) > Mtime(dir, x) {
      InsertByTimeBelow(xs[..|xs| - 1], x, dir, bound);
    }
  }

  lemma {:induction false} InsertByTimeOrder(xs: seq<string>, x: string, dir: Directory)
    requires OldestFirst(xs, dir)
    ensures OldestFirst(InsertByTime(xs, x, dir), dir)
  {
    var n := |xs| - 1;
    if n >= 0 && Mtime(dir, xs[n]) > Mtime(dir, x) {
      InsertByTimeOrder(xs[..n], x, dir);
      InsertByTimeBelow(xs[..n], x, dir, Mtime(dir, xs[n]));
    }
  }

  method SortByTime(xs: seq<string>, dir: Directory) returns (r: seq<string>)
    requires Distinct(xs)
    ensures |r| == |xs| && (forall y :: y in r <==> y in xs) && Distinct(r) && OldestFirst(r, dir)
  {
    r := [];
    for i := 0 to |xs|
      invariant |r| == i && (forall y :: y in r <==> y in xs[..i]) && Distinct(r) && OldestFirst(r, dir)
    {
      assert xs[i] !in xs[..i] && xs[..i + 1] == xs[..i] + [xs[i]];
      InsertByTimeMembers(r, xs[i], dir);
      InsertByTimeOrder(r, xs[i], dir);
      r := InsertByTime(r, xs[i], dir);
    }
    assert xs[..|xs|] == xs;
  }

  /** A directory listing, in no particular order. */
  method Listing(names: set<string>) returns (r: seq<string>)
    ensures Distinct(r) && |r| == |names| && forall y :: y in r <==> y in names
  {
    r := [];
    var rest := names;
    while rest != {}
      invariant rest <= names && |r| + |rest| == |names| && Distinct(r)
      invariant forall y :: y in r <==> y in names && y !in rest
    {
      var x :| x in rest;
      r, rest := r + [x], rest - {x};
    }
  }

  function ToSet(xs: seq<string>): set<string> { set x | x in xs }

  lemma {:induction false} DistinctSize(xs: seq<string>)
    requires Distinct(xs)
    ensures |ToSet(xs)| == |xs|
  {
    if xs != [] {
      var n := |xs| - 1;
      var front := xs[..n];
      DistinctSize(front);
      assert ToSet(xs) == ToSet(front) + {xs[n]} by {
        assert xs == front + [xs[n]];
      }
      assert xs[n] !in ToSet(front);
    }
  }

  // ---- the sink ----

  /** The parent of the configured path: none at all, the empty path, or a directory. */
  datatype Parent = NoParent | EmptyPath | Folder

  class JsonlSink {
    const stem: string
    const hasParent: bool
    const maxBytes: nat
    const keepFiles: nat
    /** The directory, and a clock that gives every new mtime. */
    var dir: Directory
    var clock: nat
    var active: Option<string>
    var written: nat
    var today: string

    ghost predicate Valid()
      reads this
    {
      maxBytes <= U64_MAX && forall f | f in dir :: dir[f].mtime < clock
    }

    /** Every file is within the cap as promised, and the active file is there. */
    ghost predicate Sound()
      reads this
    {
      && (forall f | f in dir :: Capped(dir[f], maxBytes))
      && (active.Some? ==> active.value in dir && dir[active.value].Len() == written)
    }

    /** Sound, with pruning on and never more matching files than overflow names, so that
        every day has a free name. */
    ghost predicate Healthy()
      reads this
    {
      Sound() && hasParent && 1 <= keepFiles <= OVERFLOWS && |Matching(dir.Keys, stem)| <= OVERFLOWS
    }

    constructor (
      stem: string, hasParent: bool, maxBytes: nat, keepFiles: nat, dir: Directory, clock: nat, day: string)
      requires maxBytes <= U64_MAX && forall f | f in dir :: dir[f].mtime < clock
      ensures Valid() && today == day && active == Some(Primary(stem, day))
      ensures this.stem == stem && this.hasParent == hasParent
      ensures this.maxBytes == maxBytes && this.keepFiles == keepFiles
      ensures this.dir == if Primary(stem, day) in dir then dir else dir[Primary(stem, day) := File(0, [], clock)]
      ensures Sound() <==> forall f | f in dir :: Capped(dir[f], maxBytes)
    {
      this.stem, this.hasParent, this.maxBytes, this.keepFiles := stem, hasParent, maxBytes, keepFiles;
      var path := Primary(stem, day);
      var now := if path in dir then dir else dir[path := File(0, [], clock)];
      this.dir, this.clock, this.active, this.written, this.today := now, clock + 1, Some(path), now[path].Len(), day;
      new;
      assert forall f | f in dir :: f in this.dir && this.dir[f] == dir[f];
    }

    /** Start-up: fails without a parent, or when the directory or the file cannot be made;
        otherwise the dated file is open, whatever it holds. */
    static method Start(
      stem: string, parent: Parent, maxBytes: nat, keepFiles: nat, dir: Directory, clock: nat, day: string,
      folderMade: bool, fileOpened: bool)
      returns (sink: Option<JsonlSink>)
      requires maxBytes <= U64_MAX && forall f | f in dir :: dir[f].mtime < clock
      ensures sink.Some? <==> !parent.NoParent? && (parent.Folder? ==> folderMade) && fileOpened
      ensures sink.Some? ==>
        && fresh(sink.value) && sink.value.Valid()
        && sink.value.active == Some(Primary(stem, day)) && Primary(stem, day) in sink.value.dir
        && (forall f | f in dir :: f in sink.value.dir && sink.value.dir[f] == dir[f])
        && (forall f | f in sink.value.dir && f != Primary(stem, day) :: f in dir)
      ensures sink.Some? ==>
        (sink.value.Healthy() <==>
          && (forall f | f in dir :: Capped(dir[f], maxBytes)) && parent.Folder? && 1 <= keepFiles <= OVERFLOWS
          && |Matching(dir.Keys + {Primary(stem, day)}, stem)| <= OVERFLOWS)
    {
      if parent.NoParent? || (parent.Folder? && !folderMade) || !fileOpened {
        return None;
      }
      var made := new JsonlSink(stem, parent.Folder?, maxBytes, keepFiles, dir, clock, day);
      assert made.dir.Keys == dir.Keys + {Primary(stem, day)};
      sink := Some(made);
    }

    /** Removes the oldest matching files beyond `keepFiles`, except those in `stuck`, whose
        removal fails, and nothing else.  The newest one always stays. */
    method PruneOldest(stuck: set<string>)
      requires Valid()
      modifies this`dir
      ensures Valid()
      ensures keepFiles == 0 || !hasParent ==> dir == old(dir)
      ensures dir.Keys <= old(dir.Keys) && forall f | f in dir :: dir[f] == old(dir)[f]
      ensures forall f | f in old(dir) && (!(stem <= f) || f in stuck) :: f in dir
      ensures forall f | f in old(dir) && Newest(old(dir), stem, f) :: f in dir
      ensures keepFiles > 0 && hasParent ==> |Matching(dir.Keys - stuck, stem)| <= keepFiles
      ensures |Matching(dir.Keys, stem)| >= keepFiles || dir == old(dir)
      ensures forall gone, kept | gone in old(dir) && gone !in dir && kept in dir && stem <= kept && kept !in stuck ::
        old(dir)[gone].mtime <= dir[kept].mtime
    {
      if keepFiles == 0 || !hasParent {
        return;
      }
      var files := Listing(Matching(dir.Keys, stem));
      if |files| <= keepFiles {
        assert Matching(dir.Keys - stuck, stem) <= Matching(dir.Keys, stem);
        SubsetSize(Matching(dir.Keys - stuck, stem), Matching(dir.Keys, stem));
        return;
      }
      files := SortByTime(files, dir);
      var surplus := |files| - keepFiles;
      ghost var before := dir;
      for i := 0 to surplus
        invariant dir == before - (ToSet(files[..i]) - stuck)
      {
        assert ToSet(files[..i + 1]) == ToSet(files[..i]) + {files[i]};
        if files[i] !in stuck {
          dir := dir - {files[i]};
        }
      }
      PruneEffect(before, files, surplus, stuck, stem);
      PruneOrder(before, files, surplus, stuck, stem);
    }

    /** Closes the active file and opens the next target: a new one exactly on a free day. */
    method OpenTarget(day: string, openOk: bool)
      requires Valid()
      modifies this
      ensures Valid() && today == day && clock >= old(clock)
      ensures !openOk ==> active.None? && written == 0 && dir == old(dir)
      ensures openOk ==> active.Some? && active.value in dir && stem <= active.value
      ensures openOk ==> written == dir[active.value].Len()
      ensures openOk ==> (active.value !in old(dir) <==> FreeDay(old(dir).Keys, stem, day))
      ensures openOk && !FreeDay(old(dir).Keys, stem, day) ==> active.value == Primary(stem, day) && dir == old(dir)
      ensures openOk && FreeDay(old(dir).Keys, stem, day) ==> dir == old(dir)[active.value := File(0, [], old(clock))]
    {
      hide FreeDay;
      active, written, today := None, 0, day;
      var target := NextTarget(dir.Keys, stem, day);
      if openOk {
        if target !in dir {
          dir, clock := dir[target := File(0, [], clock)], clock + 1;
        }
        active, written := Some(target), dir[target].Len();
      }
    }

    /**
     Rotation.  It gets a name no file has exactly when the day has one left; that file
     starts empty and pruning leaves it alone.  Whatever was there before, with pruning on
     and deletes succeeding at most `keepFiles` matching files remain; when that is no more
     than the overflow names, every day then has a free name, so of a run of rotations only
     the first can find every name taken.
     */
    method RotateTo(day: string, openOk: bool, stuck: set<string>)
      requires Valid()
      modifies this
      ensures Valid() && today == day && (openOk <==> active.Some?)
      ensures openOk ==> (active.value !in old(dir) <==> FreeDay(old(dir).Keys, stem, day))
      ensures openOk && !FreeDay(old(dir).Keys, stem, day) ==> active.value == Primary(stem, day)
      ensures openOk && FreeDay(old(dir).Keys, stem, day) ==>
        active.value in dir && dir[active.value] == File(0, [], old(clock)) && written == 0
      ensures old(Sound()) && FreeDay(old(dir).Keys, stem, day) ==> Sound() && written == 0
      ensures hasParent && keepFiles > 0 && stuck == {} ==> |Matching(dir.Keys, stem)| <= keepFiles
      ensures hasParent && 0 < keepFiles <= OVERFLOWS && stuck == {} ==> forall d :: FreeDay(dir.Keys, stem, d)
      ensures old(Healthy()) && stuck == {} ==> Healthy()
      ensures forall f | f in dir && f in old(dir) :: dir[f] == old(dir)[f]
      ensures forall f | f in dir && f !in old(dir) :: active == Some(f)
      ensures forall f | f in old(dir) && !(stem <= f) :: f in dir
    {
      hide FreeDay, Capped;
      EmptyIsCapped(clock, maxBytes);
      if |Matching(dir.Keys, stem)| <= OVERFLOWS {
        HealthyDayIsFree(dir.Keys, stem, day);
      }
      OpenTarget(day, openOk);
      PruneOldest(stuck);
      assert stuck == {} ==> dir.Keys - stuck == dir.Keys;
      if |Matching(dir.Keys, stem)| <= OVERFLOWS {
        forall d ensures FreeDay(dir.Keys, stem, d) {
          HealthyDayIsFree(dir.Keys, stem, d);
        }
      }
    }

    /** Writes one line of `size` bytes, of which `taken` reach the file, to the active file. */
    method WriteLine(size: nat, taken: nat)
      requires Valid() && 0 < size && taken <= size
      modifies this`dir, this`clock, this`active, this`written
      ensures Valid() && (active == old(active) || active.None?)
      ensures old(Sound()) && (SaturatingAdd(old(written), size) <= maxBytes || old(written) == 0) ==> Sound()
      ensures active.Some? && active.value in old(dir) ==>
        active.value in dir && dir[active.value].lines == old(dir)[active.value].lines + [size]
      ensures dir.Keys == old(dir).Keys && forall f | f in dir && old(active) != Some(f) :: dir[f] == old(dir)[f]
    {
      hide Capped, Sum;
      if active.None? {
        return;
      }
      var path := active.value;
      // A file pruned away while open still takes the bytes, out of the directory's sight.
      var took := taken;
      if path in dir {
        var f := dir[path];
        took := if f.Len() + taken <= U64_MAX then taken else if f.Len() <= U64_MAX then U64_MAX - f.Len() else 0;
        if took > 0 {
          CappedGrows(f, took, clock, maxBytes);
          dir, clock := dir[path := File(f.found, f.lines + [took], clock)], clock + 1;
        }
      }
      assert dir.Keys == old(dir).Keys;
      if took < size {
        active := None;
        return;
      }
      written := SaturatingAdd(written, size);
    }

    /** Appends one audit line.  On a day with a free name a sound sink stays sound: it never
        takes a file past the cap except by that file's only line, never rotates onto a
        name in use, and never loses the file it is writing to.  A healthy sink stays
        healthy, and so has a free name every day. */
    method Append(size: nat, day: string, dailyOpens: bool, capOpens: bool, taken: nat, stuck: set<string>)
      requires Valid() && 0 < size && taken <= size
      modifies this
      ensures Valid()
      ensures old(Sound()) && FreeDay(old(dir).Keys, stem, day) ==> Sound()
      ensures old(Healthy()) ==> FreeDay(old(dir).Keys, stem, day)
      ensures old(Healthy()) && stuck == {} ==> Healthy()
      ensures old(Sound()) && FreeDay(old(dir).Keys, stem, day) && active.Some? && active != old(active) ==>
        active.value !in old(dir) && dir[active.value].lines == [size]
      ensures old(Sound()) && FreeDay(old(dir).Keys, stem, day) && active.Some? && active == old(active) ==>
        dir[active.value].lines == old(dir)[active.value].lines + [size]
      ensures forall f | f in dir && f in old(dir) && active != Some(f) && old(active) != Some(f) &&
        old(Sound()) && FreeDay(old(dir).Keys, stem, day) :: dir[f] == old(dir)[f]
      ensures forall f | f in old(dir) && !(stem <= f) :: f in dir
    {
      hide FreeDay, Capped;
      if |Matching(dir.Keys, stem)| <= OVERFLOWS {
        HealthyDayIsFree(dir.Keys, stem, day);
      }
      if day != today {
        RotateTo(day, dailyOpens, stuck);
      }
      if SaturatingAdd(written, size) > maxBytes && written > 0 {
        RotateTo(day, capOpens, stuck);
      }
      WriteLine(size, taken);
    }
  }

  lemma HealthyDayIsFree(names: set<string>, stem: string, day: string)
    requires |Matching(names, stem)| <= OVERFLOWS
    ensures FreeDay(names, stem, day)
  {
    FreeCandidate(names, stem, day, OVERFLOWS + 1);
  }

  lemma EmptyIsCapped(mtime: nat, maxBytes: nat)
    ensures Capped(File(0, [], mtime), maxBytes) && File(0, [], mtime).Len() == 0
  {
  }

  lemma CappedGrows(f: File, took: nat, mtime: nat, maxBytes: nat)
    requires took > 0
    ensures var f' := File(f.found, f.lines + [took], mtime);
      && f'.Len() == f.Len() + took
      && (Capped(f, maxBytes) && f.Len() + took <= U64_MAX && (f.Len() + took <= maxBytes || f.Len() == 0) ==>
            Capped(f', maxBytes))
  {
    SumAppend(f.lines, took);
    if Capped(f, maxBytes) && f.lines != [] {
      LinesWeigh(f.lines);
    }
  }

  /** The matching file that was made last. */
  ghost predicate Newest(dir: Directory, stem: string, f: string)
  {
    f in dir && stem <= f && forall g | g in dir && stem <= g && g != f :: dir[g].mtime < dir[f].mtime
  }

  /** The directory once the first `surplus` files are gone, but for the stuck ones. */
  ghost function Pruned(before: Directory, files: seq<string>, surplus: nat, stuck: set<string>): Directory
    requires surplus <= |files|
  {
    before - (ToSet(files[..surplus]) - stuck)
  }

  lemma SplitFiles(before: Directory, files: seq<string>, surplus: nat, stem: string, f: string)
    requires Distinct(files) && surplus <= |files| && forall y :: y in files <==> y in Matching(before.Keys, stem)
    ensures f in files[surplus..] <==> f in Matching(before.Keys, stem) && f !in files[..surplus]
    ensures f in files[..surplus] ==> f in before && stem <= f
  {
    assert files == files[..surplus] + files[surplus..];
    if f in files[surplus..] {
      var j :| 0 <= j < |files| - surplus && files[surplus..][j] == f;
      assert files[surplus + j] == f;
    }
    assert f in files ==> f in Matching(before.Keys, stem);
  }

  lemma PruneEffect(before: Directory, files: seq<string>, surplus: nat, stuck: set<string>, stem: string)
    requires Distinct(files) && surplus <= |files| && forall y :: y in files <==> y in Matching(before.Keys, stem)
    ensures var dir := Pruned(before, files, surplus, stuck);
      && |Matching(dir.Keys - stuck, stem)| <= |files| - surplus <= |Matching(dir.Keys, stem)|
      && (forall f | f in before && (!(stem <= f) || f in stuck) :: f in dir)
  {
    var dir := Pruned(before, files, surplus, stuck);
    var young := ToSet(files[surplus..]);
    DistinctSize(files[surplus..]);
    forall f ensures f in Matching(dir.Keys - stuck, stem) ==> f in young
             ensures f in young ==> f in Matching(dir.Keys, stem)
             ensures f in before && !(stem <= f) ==> f in dir
    {
      SplitFiles(before, files, surplus, stem, f);
    }
    SubsetSize(Matching(dir.Keys - stuck, stem), young);
    SubsetSize(young, Matching(dir.Keys, stem));
  }

  lemma PruneOrder(before: Directory, files: seq<string>, surplus: nat, stuck: set<string>, stem: string)
    requires Distinct(files) && surplus < |files| && forall y :: y in files <==> y in Matching(before.Keys, stem)
    requires OldestFirst(files, before)
    ensures var dir := Pruned(before, files, surplus, stuck);
      && (forall gone, kept | gone in before && gone !in dir && kept in dir && stem <= kept && kept !in stuck ::
            before[gone].mtime <= before[kept].mtime)
      && (forall f | f in before && Newest(before, stem, f) :: f in dir)
  {
    var dir := Pruned(before, files, surplus, stuck);
    forall gone, kept | gone in before && gone !in dir && kept in files[surplus..]
      ensures Mtime(before, gone) <= Mtime(before, kept) && gone != kept
    {
      var i :| 0 <= i < surplus && files[i] == gone;
      var j :| 0 <= j < |files| - surplus && files[surplus..][j] == kept;
      assert files[surplus + j] == kept;
    }
    forall kept | kept in dir && stem <= kept && kept !in stuck ensures kept in files[surplus..] {
      SplitFiles(before, files, surplus, stem, kept);
    }
    var last := files[|files| - 1];
    assert last in files[surplus..] by {
      assert files[surplus..][|files| - 1 - surplus] == last;
    }
    assert last in Matching(before.Keys, stem);
  }
}
