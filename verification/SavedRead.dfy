/**
 * packages/config/src/saved-read.ts: the saved-configuration cache. Writers may change any file between any two of its
 * steps, so the file system is a history: the state of every file at every tick. Each stat and each read takes one
 * tick.
 */
module SavedRead {
  import opened Wrappers

  datatype File = Absent | Present(mtimeNs: int, size: nat, ino: nat, regular: bool, text: string) | Unstatable

  datatype Print = AbsentPrint | Stamp(mtimeNs: int, size: nat, ino: nat, regular: bool)

  /** None when the time is too coarse to trust: its decimal digits end in six zeros. */
  function Fingerprint(file: File): Option<Print> {
    match file
    case Absent => Some(AbsentPrint)
    case Unstatable => None
    case Present(mtimeNs, size, ino, regular, _) =>
      if mtimeNs != 0 && mtimeNs % 1_000_000 == 0 then None else Some(Stamp(mtimeNs, size, ino, regular))
  }

  /** A number's decimal digits, without its sign. */
  function Digits(n: nat): string {
    if n < 10 then ["0123456789"[n]] else Digits(n / 10) + ["0123456789"[n % 10]]
  }

  function Decimal(n: int): string {
    if n < 0 then "-" + Digits(-n) else Digits(n)
  }

  predicate EndsInZeros(text: string, count: nat) {
    count <= |text| && forall i :: |text| - count <= i < |text| ==> text[i] == '0'
  }

  predicate TensOver(n: nat, count: nat) {
    count == 0 || (n % 10 == 0 && TensOver(n / 10, count - 1))
  }

  lemma {:induction false} DigitsEndInZeros(n: nat, count: nat)
    requires n > 0
    ensures EndsInZeros(Digits(n), count) <==> TensOver(n, count)
    decreases count
  {
    if count > 0 {
      var text := Digits(n);
      if n % 10 == 0 {
        DigitsEndInZeros(n / 10, count - 1);
        ZerosSnoc(Digits(n / 10), count - 1);
      } else {
        assert text[|text| - 1] != '0';
      }
    }
  }

  lemma {:induction false} ZerosSnoc(text: string, count: nat)
    ensures EndsInZeros(text + ['0'], count + 1) <==> EndsInZeros(text, count)
  {
    var more := text + ['0'];
    assert forall i :: 0 <= i < |text| ==> more[i] == text[i];
    if EndsInZeros(more, count + 1) {
      forall i | |text| - count <= i < |text| ensures text[i] == '0' {
        assert more[i] == '0';
      }
    }
  }

  lemma {:induction false} TensOverTen(n: nat)
    ensures n % 100 == 0 <==> n % 10 == 0 && n / 10 % 10 == 0
  {
    var k, t := n / 10 / 10, n / 10 % 10;
    assert n == 100 * k + (10 * t + n % 10);
    assert n % 100 == 10 * t + n % 10;
  }

  lemma {:induction false} TensOverHundred(n: nat)
    ensures n % 1000 == 0 <==> n % 10 == 0 && n / 10 % 100 == 0
  {
    var k, t := n / 10 / 100, n / 10 % 100;
    assert n == 1000 * k + (10 * t + n % 10);
    assert n % 1000 == 10 * t + n % 10;
  }

  lemma {:induction false} TensOverThousand(n: nat)
    ensures n % 10000 == 0 <==> n % 10 == 0 && n / 10 % 1000 == 0
  {
    var k, t := n / 10 / 1000, n / 10 % 1000;
    assert n == 10000 * k + (10 * t + n % 10);
    assert n % 10000 == 10 * t + n % 10;
  }

  lemma {:induction false} TensOverTenThousand(n: nat)
    ensures n % 100000 == 0 <==> n % 10 == 0 && n / 10 % 10000 == 0
  {
    var k, t := n / 10 / 10000, n / 10 % 10000;
    assert n == 100000 * k + (10 * t + n % 10);
    assert n % 100000 == 10 * t + n % 10;
  }

  lemma {:induction false} TensOverHundredThousand(n: nat)
    ensures n % 1000000 == 0 <==> n % 10 == 0 && n / 10 % 100000 == 0
  {
    var k, t := n / 10 / 100000, n / 10 % 100000;
    assert n == 1000000 * k + (10 * t + n % 10);
    assert n % 1000000 == 10 * t + n % 10;
  }

  lemma {:induction false} SixTens(n: nat)
    ensures TensOver(n, 6) <==> n % 1_000_000 == 0
  {
    var a := n / 10;
    var b := a / 10;
    var c := b / 10;
    var d := c / 10;
    TensOverHundredThousand(n);
    TensOverTenThousand(a);
    TensOverThousand(b);
    TensOverHundred(c);
    TensOverTen(d);
    assert TensOver(d / 10, 1) <==> d / 10 % 10 == 0;
    assert TensOver(d, 2) <==> d % 10 == 0 && TensOver(d / 10, 1);
    assert TensOver(c, 3) <==> c % 10 == 0 && TensOver(d, 2);
    assert TensOver(b, 4) <==> b % 10 == 0 && TensOver(c, 3);
    assert TensOver(a, 5) <==> a % 10 == 0 && TensOver(b, 4);
  }

  /** A print is missing exactly for a file no stat answers for, and for one whose time ends in six zeros as spelled. */
  lemma {:induction false} PrintMissing(file: File)
    ensures Fingerprint(file).None? <==>
            file.Unstatable? || (file.Present? && EndsInZeros(Decimal(file.mtimeNs), 6))
  {
    if file.Present? && file.mtimeNs != 0 {
      var n: nat := if file.mtimeNs < 0 then -file.mtimeNs else file.mtimeNs;
      DigitsEndInZeros(n, 6);
      SixTens(n);
      if file.mtimeNs < 0 {
        AfterSign(Digits(n));
        MultipleOfMillion(file.mtimeNs);
      }
    }
  }

  lemma {:induction false} AfterSign(digits: string)
    ensures EndsInZeros("-" + digits, 6) <==> EndsInZeros(digits, 6)
  {
    var all := "-" + digits;
    assert all[0] == '-' && forall i :: 0 <= i < |digits| ==> all[i + 1] == digits[i];
    if EndsInZeros(all, 6) {
      assert all[|all| - 6] == '0';
      forall i | |digits| - 6 <= i < |digits| ensures digits[i] == '0' {
        assert all[i + 1] == '0';
      }
    }
  }

  lemma {:induction false} MultipleOfMillion(n: int)
    requires n < 0
    ensures n % 1_000_000 == 0 <==> (-n) % 1_000_000 == 0
  {
  }

  /** Two files show one print exactly when both are missing, or agree in time, size, inode and kind. */
  lemma {:induction false} PrintTells(a: File, b: File)
    requires Fingerprint(a).Some? && Fingerprint(b).Some?
    ensures Fingerprint(a) == Fingerprint(b) <==>
            (a.Absent? && b.Absent?) ||
            (a.Present? && b.Present? && a.mtimeNs == b.mtimeNs && a.size == b.size && a.ino == b.ino
             && a.regular == b.regular)
  {
  }

  type History = (nat, string) -> File

  /** A path showing one non-null fingerprint at `a` and at `c` did not change in between. */
  ghost predicate Unbroken(world: History, path: string, a: nat, b: nat, c: nat) {
    a <= b <= c && Fingerprint(world(a, path)).Some? && Fingerprint(world(a, path)) == Fingerprint(world(c, path)) ==>
      world(b, path) == world(a, path)
  }

  /** A file that changed never shows an earlier non-null fingerprint again. */
  ghost predicate NoReturn(world: History) {
    forall path: string, a: nat, b: nat, c: nat :: Unbroken(world, path, a, b, c)
  }

  /** What a load answered, its time aside, or the fatal report. */
  datatype Answer = Loaded(configuration: string, loadMs: Option<int>) | Fatal(report: string)

  function WithLoadMs(answer: Answer, ms: Option<int>): Answer {
    if answer.Fatal? then answer else Loaded(answer.configuration, ms)
  }

  datatype Observation = Observation(path: string, file: File)

  /** The load's next act, given everything it has read so far: it discovers its inputs as it goes. */
  datatype Act = Read(path: string) | Answered(answer: Answer) | Threw

  type Loader = seq<Observation> -> Act

  /** Every load ends within `bound` reads. */
  ghost predicate EndsWithin(load: Loader, bound: nat) {
    forall seen: seq<Observation> :: |seen| >= bound ==> !load(seen).Read?
  }

  /** A load carried on from `seen` against one fixed state of every file. */
  ghost function RunFrom(load: Loader, snapshot: string -> File, seen: seq<Observation>, bound: nat): Act
    requires EndsWithin(load, bound)
    decreases bound - |seen|
  {
    match load(seen)
    case Read(path) => RunFrom(load, snapshot, seen + [Observation(path, snapshot(path))], bound)
    case Answered(answer) => Answered(answer)
    case Threw => Threw
  }

  ghost function FreshLoad(load: Loader, snapshot: string -> File, bound: nat): Act
    requires EndsWithin(load, bound)
  {
    RunFrom(load, snapshot, [], bound)
  }

  /** `seen` is what the load reads, in order, when each path shows `snapshot`'s state. */
  ghost predicate Follows(load: Loader, snapshot: string -> File, seen: seq<Observation>) {
    forall i :: 0 <= i < |seen| ==>
      load(seen[..i]) == Read(seen[i].path) && seen[i].file == snapshot(seen[i].path)
  }

  lemma {:induction false} FollowedRun(load: Loader, snapshot: string -> File, seen: seq<Observation>, n: nat,
      bound: nat)
    requires EndsWithin(load, bound) && Follows(load, snapshot, seen) && n <= |seen|
    ensures RunFrom(load, snapshot, seen[..n], bound) == RunFrom(load, snapshot, seen, bound)
    decreases |seen| - n
  {
    if n < |seen| {
      assert seen[..n + 1] == seen[..n] + [seen[n]];
      FollowedRun(load, snapshot, seen, n + 1, bound);
    } else {
      assert seen[..n] == seen;
    }
  }

  datatype Recorded = Recorded(path: string, mark: Print)

  datatype Kept = Kept(key: string, environment: string, files: seq<Recorded>, answer: Answer)

  /** Each path's state at the tick it is given. */
  ghost function Snapshot(world: History, ticks: map<string, nat>): string -> File {
    path => world(if path in ticks then ticks[path] else 0, path)
  }

  ghost predicate Records(world: History, files: seq<Recorded>, ticks: map<string, nat>) {
    && (forall i, j :: 0 <= i < j < |files| ==> files[i].path != files[j].path)
    && (forall i :: 0 <= i < |files| ==>
          files[i].path in ticks && Fingerprint(world(ticks[files[i].path], files[i].path)) == Some(files[i].mark))
    && (forall p :: p in ticks ==> exists i :: 0 <= i < |files| && files[i].path == p)
  }

  /** The recorded files, each as it stood at its tick, are what the answer was computed from, and all it was. */
  ghost predicate Justified(world: History, load: Loader, kept: Kept, ticks: map<string, nat>, seen: seq<Observation>) {
    && Records(world, kept.files, ticks)
    && Follows(load, Snapshot(world, ticks), seen)
    && (forall i :: 0 <= i < |seen| ==> seen[i].path in ticks)
    && load(seen) == Answered(kept.answer)
  }

  /** The tick of each recorded file's stat when the check starts at `start`. */
  ghost function StatTicks(files: seq<Recorded>, start: nat): map<string, nat> {
    if files == [] then map[]
      else StatTicks(files[..|files| - 1], start)[files[|files| - 1].path := start + |files| - 1]
  }

  /** Every recorded file still shows its recorded print, each at its own stat. */
  ghost predicate AllUnchanged(world: History, files: seq<Recorded>, start: nat) {
    forall i :: 0 <= i < |files| ==> Fingerprint(world(start + i, files[i].path)) == Some(files[i].mark)
  }

  lemma {:induction false} StatTickAt(files: seq<Recorded>, start: nat, i: nat)
    requires i < |files| && forall j :: i < j < |files| ==> files[j].path != files[i].path
    ensures files[i].path in StatTicks(files, start) && StatTicks(files, start)[files[i].path] == start + i
    decreases files
  {
    if i < |files| - 1 {
      StatTickAt(files[..|files| - 1], start, i);
    }
  }

  lemma {:induction false} UnchangedMeansSameState(world: History, files: seq<Recorded>, ticks: map<string, nat>,
      start: nat, p: string)
    requires NoReturn(world) && Records(world, files, ticks) && AllUnchanged(world, files, start)
    requires p in ticks && ticks[p] <= start
    ensures p in StatTicks(files, start) && world(StatTicks(files, start)[p], p) == world(ticks[p], p)
  {
    var i :| 0 <= i < |files| && files[i].path == p;
    StatTickAt(files, start, i);
    ShownAgain(world, p, ticks[p], start + i);
  }

  /** A file that shows a fingerprint again is as it was. */
  lemma {:induction false} ShownAgain(world: History, path: string, first: nat, again: nat)
    requires NoReturn(world) && first <= again && Fingerprint(world(first, path)).Some?
    requires Fingerprint(world(again, path)) == Fingerprint(world(first, path))
    ensures world(again, path) == world(first, path)
  {
    assert Unbroken(world, path, first, again, again);
  }

  lemma {:induction false} SameStatesSameRun(load: Loader, a: string -> File, b: string -> File,
      seen: seq<Observation>, bound: nat)
    requires EndsWithin(load, bound) && Follows(load, a, seen)
    requires forall i :: 0 <= i < |seen| ==> a(seen[i].path) == b(seen[i].path)
    ensures FreshLoad(load, b, bound) == RunFrom(load, b, seen, bound)
  {
    assert Follows(load, b, seen);
    FollowedRun(load, b, seen, 0, bound);
  }

  /** A justified answer whose every recorded print still shows is what a load of those files would answer now. */
  lemma {:induction false} UnchangedMeansFresh(world: History, load: Loader, bound: nat, kept: Kept,
      ticks: map<string, nat>,
                                               seen: seq<Observation>, start: nat)
    requires NoReturn(world) && EndsWithin(load, bound)
    requires Justified(world, load, kept, ticks, seen)
    requires forall p :: p in ticks ==> ticks[p] <= start
    requires AllUnchanged(world, kept.files, start)
    ensures FreshLoad(load, Snapshot(world, StatTicks(kept.files, start)), bound) == Answered(kept.answer)
  {
    var now := Snapshot(world, StatTicks(kept.files, start));
    forall i | 0 <= i < |seen| ensures Snapshot(world, ticks)(seen[i].path) == now(seen[i].path) {
      UnchangedMeansSameState(world, kept.files, ticks, start, seen[i].path);
    }
    SameStatesSameRun(load, Snapshot(world, ticks), now, seen, bound);
  }

  /** The paths a load touches, in order of first touch, each with the print taken before its first read. */
  datatype Inputs = Inputs(order: seq<string>, marks: map<string, Option<Print>>)

  ghost predicate WellOrdered(inputs: Inputs) {
    && (forall i, j :: 0 <= i < j < |inputs.order| ==> inputs.order[i] != inputs.order[j])
    && (forall p :: p in inputs.order <==> p in inputs.marks)
  }

  function WithInput(inputs: Inputs, path: string, mark: Option<Print>): Inputs {
    Inputs(if path in inputs.marks then inputs.order else inputs.order + [path], inputs.marks[path := mark])
  }

  /** Each mark is its path's fingerprint at the tick of its stat. */
  ghost predicate Taken(world: History, inputs: Inputs, ticks: map<string, nat>, end: nat) {
    && WellOrdered(inputs)
    && ticks.Keys == inputs.marks.Keys
    && forall p :: p in ticks ==> ticks[p] < end && Fingerprint(world(ticks[p], p)) == inputs.marks[p]
  }

  lemma {:induction false} TakeOne(world: History, inputs: Inputs, ticks: map<string, nat>, end: nat, path: string)
    requires Taken(world, inputs, ticks, end)
    ensures Taken(world, WithInput(inputs, path, Fingerprint(world(end, path))), ticks[path := end], end + 1)
  {
    var after := WithInput(inputs, path, Fingerprint(world(end, path)));
    assert forall p :: p in after.order <==> p in inputs.order || p == path;
  }

  /** Every one of the paths has been looked at. */
  ghost predicate Looked(inputs: Inputs, paths: seq<string>) {
    forall p :: p in paths ==> p in inputs.marks
  }

  lemma {:induction false} LookedOneMore(inputs: Inputs, paths: seq<string>, path: string, mark: Option<Print>)
    requires Looked(inputs, paths)
    ensures Looked(WithInput(inputs, path, mark), paths + [path])
  {
  }

  /** Each read saw its file at its own tick, no earlier than that file's stat. */
  ghost predicate ReadLive(world: History, load: Loader, seen: seq<Observation>, readTicks: seq<nat>,
      ticks: map<string, nat>, end: nat)
  {
    && |readTicks| == |seen|
    && forall i :: 0 <= i < |seen| ==>
         && load(seen[..i]) == Read(seen[i].path)
         && seen[i].path in ticks && ticks[seen[i].path] <= readTicks[i] < end
         && seen[i].file == world(readTicks[i], seen[i].path)
  }

  lemma {:induction false} ReadOne(world: History, load: Loader, seen: seq<Observation>, readTicks: seq<nat>,
                                   ticks: map<string, nat>, end: nat, path: string)
    requires ReadLive(world, load, seen, readTicks, ticks, end) && load(seen) == Read(path)
    requires path in ticks && ticks[path] <= end
    ensures ReadLive(world, load, seen + [Observation(path, world(end, path))], readTicks + [end], ticks, end + 1)
  {
    var after := seen + [Observation(path, world(end, path))];
    assert after[..|seen|] == seen;
    assert forall i :: 0 <= i < |seen| ==> after[..i] == seen[..i];
  }

  /** Every input has a trusted print and shows it again, each at its own second stat. */
  ghost predicate Steady(world: History, inputs: Inputs, start: nat)
    requires forall p :: p in inputs.order ==> p in inputs.marks
  {
    forall i :: 0 <= i < |inputs.order| ==> StillShows(world, inputs, start, i)
  }

  ghost predicate StillShows(world: History, inputs: Inputs, start: nat, i: nat)
    requires i < |inputs.order| && inputs.order[i] in inputs.marks
  {
    var mark := inputs.marks[inputs.order[i]];
    mark.Some? && Fingerprint(world(start + i, inputs.order[i])) == mark
  }

  ghost predicate RecordsOf(inputs: Inputs, files: seq<Recorded>) {
    && |files| == |inputs.order|
    && forall i :: 0 <= i < |files| ==>
         inputs.order[i] in inputs.marks && inputs.marks[inputs.order[i]] == Some(files[i].mark)
           && inputs.order[i] == files[i].path
  }

  /** A steady input did not change from its first stat to its own second, `i` ticks after the first of those. */
  lemma {:induction false} SteadyMeansUnchanged(world: History, inputs: Inputs, ticks: map<string, nat>, start: nat,
      i: nat, t: nat)
    requires NoReturn(world) && Taken(world, inputs, ticks, start) && Steady(world, inputs, start)
    requires i < |inputs.order| && inputs.order[i] in ticks && ticks[inputs.order[i]] <= t <= start + i
    ensures var path := inputs.order[i]; world(t, path) == world(ticks[path], path)
  {
    var path := inputs.order[i];
    assert StillShows(world, inputs, start, i);
    assert Unbroken(world, path, ticks[path], t, start + i);
  }

  /** So every read saw the recorded state, and the answer is a load of the recorded files as they stood then. */
  lemma {:induction false} SteadyMeansJustified(world: History, load: Loader, inputs: Inputs, ticks: map<string, nat>,
                                                seen: seq<Observation>, readTicks: seq<nat>, start: nat, kept: Kept)
    requires NoReturn(world) && Taken(world, inputs, ticks, start)
    requires ReadLive(world, load, seen, readTicks, ticks, start)
    requires Steady(world, inputs, start) && RecordsOf(inputs, kept.files) && load(seen) == Answered(kept.answer)
    ensures Justified(world, load, kept, ticks, seen)
  {
    forall k | 0 <= k < |seen| ensures seen[k].file == Snapshot(world, ticks)(seen[k].path) {
      assert seen[k].path in inputs.order;
      var i :| 0 <= i < |inputs.order| && inputs.order[i] == seen[k].path;
      SteadyMeansUnchanged(world, inputs, ticks, start, i, readTicks[k]);
    }
    forall p | p in ticks ensures exists i :: 0 <= i < |kept.files| && kept.files[i].path == p {
      assert p in inputs.order;
      var i :| 0 <= i < |inputs.order| && inputs.order[i] == p;
      assert kept.files[i].path == p;
    }
  }

  const KEPT_WORKSPACES := 16

  function Without(kept: seq<Kept>, key: string): seq<Kept> {
    if kept == [] then []
    else if kept[0].key == key then Without(kept[1..], key)
    else [kept[0]] + Without(kept[1..], key)
  }

  /** The oldest answer goes once there are too many. */
  function Trim(kept: seq<Kept>): seq<Kept> {
    if |kept| > KEPT_WORKSPACES then kept[1..] else kept
  }

  /** `e` comes last, after what was kept before it, without the oldest of those exactly when they were sixteen. */
  ghost predicate Newest(before: seq<Kept>, e: Kept, after: seq<Kept>) {
    after == (if |before| < 16 then before else before[1..]) + [e]
  }

  ghost predicate DistinctKeys(kept: seq<Kept>) {
    forall i, j :: 0 <= i < j < |kept| ==> kept[i].key != kept[j].key
  }

  /** The entry under `key`, if there is one. */
  function Get(kept: seq<Kept>, key: string): (found: Option<Kept>)
    ensures found.Some? ==> found.value in kept && found.value.key == key
    ensures found.None? ==> forall e :: e in kept ==> e.key != key
    ensures DistinctKeys(kept) ==> forall e :: e in kept && e.key == key ==> found == Some(e)
  {
    if kept == [] then None else if kept[0].key == key then Some(kept[0]) else Get(kept[1..], key)
  }

  lemma {:induction false} WithoutKeepsTheRest(kept: seq<Kept>, key: string)
    ensures forall e :: e in Without(kept, key) <==> e in kept && e.key != key
    ensures |Without(kept, key)| <= |kept|
    ensures DistinctKeys(kept) ==> DistinctKeys(Without(kept, key))
    ensures DistinctKeys(kept) && (exists e :: e in kept && e.key == key) ==> |Without(kept, key)| < |kept|
  {
    if kept != [] {
      WithoutKeepsTheRest(kept[1..], key);
      assert forall e :: e in kept <==> e == kept[0] || e in kept[1..];
    }
  }

  /** The others stay in their order: the key's one entry is cut out, or nothing is. */
  lemma {:induction false} WithoutCutsOut(kept: seq<Kept>, key: string)
    requires DistinctKeys(kept)
    ensures (forall e :: e in kept ==> e.key != key) ==> Without(kept, key) == kept
    ensures forall i :: 0 <= i < |kept| && kept[i].key == key ==> Without(kept, key) == kept[..i] + kept[i + 1..]
  {
    if forall e :: e in kept ==> e.key != key {
      assert forall j :: 0 <= j < |kept| ==> kept[j] in kept;
      WithoutNone(kept, key);
    }
    forall i | 0 <= i < |kept| && kept[i].key == key
      ensures Without(kept, key) == kept[..i] + kept[i + 1..]
    {
      WithoutAt(kept, key, i);
    }
  }

  lemma {:induction false} WithoutAt(kept: seq<Kept>, key: string, i: nat)
    requires DistinctKeys(kept) && i < |kept| && kept[i].key == key
    ensures Without(kept, key) == kept[..i] + kept[i + 1..]
    decreases i
  {
    var rest := kept[1..];
    if i == 0 {
      WithoutNone(rest, key);
    } else {
      WithoutAt(rest, key, i - 1);
      assert [kept[0]] + rest[..i - 1] == kept[..i] && rest[i..] == kept[i + 1..];
      assert [kept[0]] + (rest[..i - 1] + rest[i..]) == ([kept[0]] + rest[..i - 1]) + rest[i..];
    }
  }

  lemma {:induction false} WithoutNone(kept: seq<Kept>, key: string)
    requires forall j :: 0 <= j < |kept| ==> kept[j].key != key
    ensures Without(kept, key) == kept
  {
    if kept != [] {
      WithoutNone(kept[1..], key);
    }
  }

  lemma {:induction false} AppendDistinct(kept: seq<Kept>, e: Kept)
    requires DistinctKeys(kept) && forall k :: k in kept ==> k.key != e.key
    ensures DistinctKeys(kept + [e]) && DistinctKeys(Trim(kept + [e]))
    ensures forall k :: k in Trim(kept + [e]) ==> k == e || k in kept
  {
    forall i | 0 <= i < |kept| ensures kept[i].key != e.key {
      assert kept[i] in kept;
    }
  }

  type Loads = (string, string) -> Loader

  /** Every load, of any key in any environment, ends within `bound` reads. */
  ghost predicate AllEnd(load: Loads, bound: nat) {
    forall key: string, environment: string :: EndsWithin(load(key, environment), bound)
  }

  /** The proof kept beside an answer: the ticks of its inputs' stats and what its load saw. */
  datatype Evidence = Evidence(ticks: map<string, nat>, seen: seq<Observation>)

  ghost predicate Sound(world: History, load: Loads, e: Kept, proof: Evidence, clock: nat) {
    && Justified(world, load(e.key, e.environment), e, proof.ticks, proof.seen)
    && forall p :: p in proof.ticks ==> proof.ticks[p] <= clock
  }

  ghost predicate AllSound(world: History, load: Loads, kept: seq<Kept>, proofs: map<string, Evidence>, clock: nat) {
    && |kept| <= KEPT_WORKSPACES && DistinctKeys(kept)
    && forall e :: e in kept ==> e.key in proofs && Sound(world, load, e, proofs[e.key], clock)
  }

  lemma {:induction false} SoundLater(world: History, load: Loads, kept: seq<Kept>, proofs: map<string, Evidence>,
      clock: nat,
                                      rest: seq<Kept>, later: nat)
    requires AllSound(world, load, kept, proofs, clock) && clock <= later
    requires |rest| <= |kept| && DistinctKeys(rest) && forall e :: e in rest ==> e in kept
    ensures AllSound(world, load, rest, proofs, later)
  {
    forall e | e in rest ensures e.key in proofs && Sound(world, load, e, proofs[e.key], later) {
      assert Sound(world, load, e, proofs[e.key], clock);
    }
  }

  lemma {:induction false} SoundWithEntry(world: History, load: Loads, kept: seq<Kept>, proofs: map<string, Evidence>,
      clock: nat,
                                          e: Kept, proof: Evidence)
    requires AllSound(world, load, kept, proofs, clock) && Sound(world, load, e, proof, clock)
    requires forall k :: k in kept ==> k.key != e.key
    ensures AllSound(world, load, Trim(kept + [e]), proofs[e.key := proof], clock)
  {
    AppendDistinct(kept, e);
    var after := proofs[e.key := proof];
    forall k | k in Trim(kept + [e]) ensures k.key in after && Sound(world, load, k, after[k.key], clock) {
      assert k == e || (k in kept && after[k.key] == proofs[k.key]);
    }
  }

  datatype Outcome = Done(answer: Answer) | Raised

  /** A loaded configuration is answered as it is, under the time this call took; a fatal report as it is. */
  ghost predicate Answers(answer: Answer, elapsed: Option<int>, outcome: Outcome) {
    match answer
    case Loaded(configuration, _) => outcome == Done(Loaded(configuration, elapsed))
    case Fatal(report) => outcome == Done(Fatal(report))
  }

  /** A load as it ran among the writers. */
  datatype LoadRun = LoadRun(
    inputs: Inputs,
    taken: map<string, nat>,
    seen: seq<Observation>,
    readTicks: seq<nat>,
    end: nat,
    act: Act)

  class SavedConfigurations {
    const world: History
    const load: Loads
    const fixedInputs: string -> seq<string>
    const bound: nat

    /** The kept answers, oldest first. */
    var kept: seq<Kept>
    /** No step so far was later than this tick. */
    var clock: nat
    ghost var proofs: map<string, Evidence>

    ghost predicate Valid()
      reads this
    {
      NoReturn(world) && AllEnd(load, bound) && AllSound(world, load, kept, proofs, clock)
    }

    constructor (world: History, load: Loads, fixedInputs: string -> seq<string>, bound: nat)
      requires NoReturn(world) && AllEnd(load, bound)
      ensures Valid() && kept == []
    {
      this.world, this.load, this.fixedInputs, this.bound := world, load, fixedInputs, bound;
      kept, clock, proofs := [], 0, map[];
    }

    /** The kept answer's check: one stat of each recorded file, stopping at the first that differs. */
    method CheckFiles(files: seq<Recorded>, start: nat) returns (same: bool, end: nat)
      ensures same == AllUnchanged(world, files, start)
      ensures start <= end <= start + |files|
    {
      end := start;
      for i := 0 to |files|
        invariant end == start + i
        invariant forall j :: 0 <= j < i ==> Fingerprint(world(start + j, files[j].path)) == Some(files[j].mark)
      {
        var now := Fingerprint(world(end, files[i].path));
        end := end + 1;
        if now != Some(files[i].mark) {
          return false, end;
        }
      }
      return true, end;
    }

    method StatFixedInputs(key: string, start: nat) returns (inputs: Inputs, ghost taken: map<string, nat>, end: nat)
      ensures start <= end && Taken(world, inputs, taken, end)
      ensures Looked(inputs, fixedInputs(key))
    {
      inputs, taken, end := Inputs([], map[]), map[], start;
      var paths := fixedInputs(key);
      var i := 0;
      while i < |paths|
        invariant i <= |paths| && start <= end
        invariant Taken(world, inputs, taken, end) && Looked(inputs, paths[..i])
      {
        TakeOne(world, inputs, taken, end, paths[i]);
        LookedOneMore(inputs, paths[..i], paths[i], Fingerprint(world(end, paths[i])));
        assert paths[..i + 1] == paths[..i] + [paths[i]];
        inputs := WithInput(inputs, paths[i], Fingerprint(world(end, paths[i])));
        taken := taken[paths[i] := end];
        end := end + 1;
        i := i + 1;
      }
      assert paths[..i] == paths;
    }

    /** The load itself, its reads interleaved with whatever the writers do. */
    method RunLoad(next: Loader, fixed: Inputs, ghost given: map<string, nat>, start: nat)
      returns (act: Act, inputs: Inputs, ghost taken: map<string, nat>, ghost seen: seq<Observation>,
        ghost readTicks: seq<nat>, end: nat)
      requires EndsWithin(next, bound) && Taken(world, fixed, given, start)
      ensures start <= end && Taken(world, inputs, taken, end) && ReadLive(world, next, seen, readTicks, taken, end)
      ensures !act.Read? && next(seen) == act
      ensures fixed.marks.Keys <= inputs.marks.Keys
    {
      inputs, taken, end := fixed, given, start;
      var log := [];
      seen, readTicks := [], [];
      act := next(log);
      while act.Read?
        invariant log == seen && act == next(seen)
        invariant start <= end && Taken(world, inputs, taken, end) && ReadLive(world, next, seen, readTicks, taken, end)
        invariant fixed.marks.Keys <= inputs.marks.Keys
        decreases bound - |log|
      {
        var path := act.path;
        if path !in inputs.marks {
          TakeOne(world, inputs, taken, end, path);
          inputs := WithInput(inputs, path, Fingerprint(world(end, path)));
          taken := taken[path := end];
          end := end + 1;
        }
        ReadOne(world, next, seen, readTicks, taken, end, path);
        seen, readTicks := seen + [Observation(path, world(end, path))], readTicks + [end];
        log := log + [Observation(path, world(end, path))];
        end := end + 1;
        act := next(log);
      }
    }

    method Recheck(inputs: Inputs, start: nat) returns (files: seq<Recorded>, steady: bool, end: nat)
      requires WellOrdered(inputs)
      ensures steady == Steady(world, inputs, start)
      ensures steady ==> RecordsOf(inputs, files)
      ensures start <= end <= start + |inputs.order|
    {
      files, end := [], start;
      for i := 0 to |inputs.order|
        invariant end == start + i && |files| == i
        invariant forall j :: 0 <= j < i ==> StillShows(world, inputs, start, j)
        invariant forall j ::
                    0 <= j < i ==>
                    inputs.marks[inputs.order[j]] == Some(files[j].mark) && inputs.order[j] == files[j].path
      {
        var path := inputs.order[i];
        var mark := inputs.marks[path];
        if mark.None? {
          assert !StillShows(world, inputs, start, i);
          return files, false, end;
        }
        var now := Fingerprint(world(end, path));
        end := end + 1;
        if now != mark {
          assert !StillShows(world, inputs, start, i);
          return files, false, end;
        }
        files := files + [Recorded(path, mark.value)];
      }
      return files, true, end;
    }

    /** The kept answer `e` serves a call for `key` that checks its files from `start` on. */
    ghost predicate Serves(e: Kept, key: string, environment: string, start: nat) {
      e.key == key && e.environment == environment && AllUnchanged(world, e.files, start)
    }

    /** The answer becomes the newest, the oldest going once there are more than sixteen. */
    method Keep(e: Kept, ghost proof: Evidence, now: nat)
      requires Valid() && clock <= now && Sound(world, load, e, proof, now) && forall k :: k in kept ==> k.key != e.key
      modifies this
      ensures Valid() && clock == now && Newest(old(kept), e, kept)
    {
      SoundLater(world, load, kept, proofs, clock, kept, now);
      SoundWithEntry(world, load, kept, proofs, now, e, proof);
      kept, proofs, clock := Trim(kept + [e]), proofs[e.key := proof], now;
    }

    /** Time passes and nothing else. */
    method Wait(now: nat)
      requires Valid() && clock <= now
      modifies this`clock
      ensures Valid() && clock == now
    {
      SoundLater(world, load, kept, proofs, clock, kept, now);
      clock := now;
    }

    /** What a load was seen to do: each input's print and tick, what it read and when, and what it came to. */
    ghost predicate Observed(run: LoadRun, key: string, environment: string, start: nat) {
      && start <= run.end && Taken(world, run.inputs, run.taken, run.end)
      && ReadLive(world, load(key, environment), run.seen, run.readTicks, run.taken, run.end)
      && Looked(run.inputs, fixedInputs(key))
      && load(key, environment)(run.seen) == run.act && !run.act.Read?
    }

    /** The miss: load, then keep the answer only when every input held still. `kept` no longer holds the key. */
    method LoadAndKeep(key: string, environment: string, start: nat)
      returns (act: Act, ghost run: LoadRun, ghost entry: Kept)
      requires Valid() && clock <= start && forall e :: e in kept ==> e.key != key
      modifies this
      ensures Valid() && Observed(run, key, environment, start) && act == run.act && run.end <= clock
      ensures if act.Answered? && Steady(world, run.inputs, run.end)
              then Newest(old(kept), entry, kept) && KeptFrom(run, key, environment, entry)
              else kept == old(kept)
    {
      var fixed, given, afterFixed := StatFixedInputs(key, start);
      var found, end;
      ghost var taken, seen, readTicks;
      act, found, taken, seen, readTicks, end := RunLoad(load(key, environment), fixed, given, afterFixed);
      run := LoadRun(found, taken, seen, readTicks, end, act);
      entry := Kept(key, environment, [], Fatal(""));
      if act.Threw? {
        Wait(end);
        return;
      }
      var files, steady, last := Recheck(found, end);
      if steady {
        entry := Kept(key, environment, files, act.answer);
        SteadyMeansJustified(world, load(key, environment), found, taken, seen, readTicks, end, entry);
        Keep(Kept(key, environment, files, act.answer), Evidence(taken, seen), end);
      }
      Wait(last);
    }

    /** The entry records the run's inputs and its answer, and the answer is a load of those files as recorded. */
    ghost predicate KeptFrom(run: LoadRun, key: string, environment: string, entry: Kept) {
      && run.act.Answered? && entry == Kept(key, environment, entry.files, run.act.answer)
      && RecordsOf(run.inputs, entry.files)
      && Justified(world, load(key, environment), entry, run.taken, run.seen)
    }

    /** An answer is kept only when each input held one state from its print, before it is read, to its own check. */
    lemma {:induction false} NothingChanged(run: LoadRun, key: string, environment: string, start: nat, i: nat, t: nat)
      requires NoReturn(world) && Observed(run, key, environment, start) && Steady(world, run.inputs, run.end)
      requires i < |run.inputs.order| && run.inputs.order[i] in run.taken
      requires run.taken[run.inputs.order[i]] <= t <= run.end + i
      ensures var path := run.inputs.order[i]; world(t, path) == world(run.taken[path], path)
    {
      SteadyMeansUnchanged(world, run.inputs, run.taken, run.end, i, t);
    }

    /** The key's kept answer, when it may be served. */
    method KeptAnswer(key: string, environment: string, start: nat) returns (served: Option<Kept>, now: nat)
      requires Valid() && clock <= start
      ensures start <= now
      ensures served.None? ==> forall e :: e in kept ==> !Serves(e, key, environment, start)
      ensures served.Some? ==>
                && served.value in kept && Serves(served.value, key, environment, start)
                && FreshLoad(load(key, environment), Snapshot(world, StatTicks(served.value.files, start)), bound) ==
                     Answered(served.value.answer)
    {
      var entry := Get(kept, key);
      if entry.None? || entry.value.environment != environment {
        return None, start;
      }
      var found := entry.value;
      var same, end := CheckFiles(found.files, start);
      if !same {
        return None, end;
      }
      assert Sound(world, load, found, proofs[key], clock);
      UnchangedMeansFresh(world, load(key, environment), bound, found, proofs[key].ticks, proofs[key].seen, start);
      return Some(found), end;
    }

    /** A served answer becomes the newest. */
    method Promote(e: Kept, now: nat)
      requires Valid() && e in kept && clock <= now
      modifies this
      ensures Valid() && kept == Without(old(kept), e.key) + [e] && clock == now
    {
      WithoutKeepsTheRest(kept, e.key);
      AppendDistinct(Without(kept, e.key), e);
      SoundLater(world, load, kept, proofs, clock, Without(kept, e.key) + [e], now);
      kept, clock := Without(kept, e.key) + [e], now;
    }

    method Forget(key: string)
      requires Valid()
      modifies this
      ensures Valid() && kept == Without(old(kept), key) && clock == old(clock)
      ensures forall e :: e in kept ==> e.key != key
    {
      WithoutKeepsTheRest(kept, key);
      SoundLater(world, load, kept, proofs, clock, Without(kept, key), clock);
      kept := Without(kept, key);
    }

    /** `readSavedConfiguration`, its first step no earlier than `start`; `elapsed` is the caller's clock's answer. */
    method ReadSavedConfiguration(key: string, environment: string, start: nat, elapsed: Option<int>)
      returns (outcome: Outcome, hit: bool, ghost run: LoadRun, ghost entry: Kept)
      requires Valid() && clock <= start
      modifies this
      ensures Valid() && start <= clock && |kept| <= KEPT_WORKSPACES
      ensures hit <==> exists e :: e in old(kept) && Serves(e, key, environment, start)
      // A hit answers what a fresh load would, each recorded file as it stood at its own stat; its entry becomes the
      // newest.
      ensures hit ==>
                && entry in old(kept) && Serves(entry, key, environment, start)
                && FreshLoad(load(key, environment), Snapshot(world, StatTicks(entry.files, start)), bound) ==
                     Answered(entry.answer)
                && Answers(entry.answer, elapsed, outcome)
                && kept == Without(old(kept), key) + [entry]
      // A miss answers what its load came to, and keeps that exactly when the load answered and every input was steady.
      ensures !hit ==>
                && Observed(run, key, environment, start)
                && (if run.act.Answered? then Answers(run.act.answer, elapsed, outcome) else outcome == Raised)
                && if run.act.Answered? && Steady(world, run.inputs, run.end)
                   then Newest(Without(old(kept), key), entry, kept) && KeptFrom(run, key, environment, entry)
                   else kept == Without(old(kept), key)
    {
      entry := Kept(key, environment, [], Fatal(""));
      run := LoadRun(Inputs([], map[]), map[], [], [], start, Threw);
      var served, now := KeptAnswer(key, environment, start);
      hit := served.Some?;
      if hit {
        entry := served.value;
        outcome := Done(WithLoadMs(served.value.answer, elapsed));
        Promote(served.value, now);
      } else {
        Forget(key);
        var act;
        act, run, entry := LoadAndKeep(key, environment, now);
        outcome := if act.Answered? then Done(WithLoadMs(act.answer, elapsed)) else Raised;
      }
    }
  }
}
