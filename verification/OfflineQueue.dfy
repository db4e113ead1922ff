/**
 The append-only log behind the offline queue: what reopening it yields after any run of
 operations and a crash at any point of the next one, and how large it may grow.
 */
module OfflineQueue {
  import opened Lru
  import opened Text
  import opened QueuedOps

  datatype QueueEntry = QueueEntry(id: nat, ts: int, op: QueuedOp)
  datatype Record = Op(entry: QueueEntry) | Completed(id: nat, ts: int)

  /** One JSON line per record. `parse` trims, parses, and checks the record's shape. */
  datatype Codec = Codec(ser: Record -> string, parse: string -> Option<Record>)

  /** What decoding makes of a character whose bytes were cut off. */
  const REPLACEMENT: char := '\U{FFFD}'

  /** What is assumed of the serialiser: one line, read back, and no part of it readable, a character cut in two or not. */
  ghost predicate Sound(c: Codec) {
    && c.parse("") == None
    && (forall r :: '\n' !in c.ser(r) && c.ser(r) != "" && c.parse(c.ser(r)) == Some(r))
    && (forall r, k | 0 <= k < |c.ser(r)| :: c.parse(c.ser(r)[..k]) == None)
    && (forall r, k | 0 <= k < |c.ser(r)| :: c.parse(c.ser(r)[..k] + [REPLACEMENT]) == None)
  }

  // ---------------------------------------------------------------- pending entries

  function Find(p: seq<QueueEntry>, id: nat): Option<QueueEntry> {
    if p == [] then None else if p[0].id == id then Some(p[0]) else Find(p[1..], id)
  }

  /** `Map.set`: a known id keeps its place. */
  function SetEntry(p: seq<QueueEntry>, e: QueueEntry): seq<QueueEntry> {
    if p == [] then [e]
    else if p[0].id == e.id then [e] + p[1..]
    else [p[0]] + SetEntry(p[1..], e)
  }

  function DeleteEntry(p: seq<QueueEntry>, id: nat): seq<QueueEntry> {
    if p == [] then []
    else if p[0].id == id then p[1..]
    else [p[0]] + DeleteEntry(p[1..], id)
  }

  function LineBytes(c: Codec, e: QueueEntry): nat {
    Utf8Len(c.ser(Op(e)))
  }

  function Sum(c: Codec, p: seq<QueueEntry>): nat {
    if p == [] then 0 else LineBytes(c, p[0]) + Sum(c, p[1..])
  }

  ghost predicate Ascending(p: seq<QueueEntry>) {
    forall i, j | 0 <= i < j < |p| :: p[i].id < p[j].id
  }

  ghost predicate Below(p: seq<QueueEntry>, bound: nat) {
    forall i | 0 <= i < |p| :: p[i].id < bound
  }

  lemma {:induction false} SetNew(c: Codec, p: seq<QueueEntry>, e: QueueEntry)
    requires Below(p, e.id)
    ensures SetEntry(p, e) == p + [e]
    ensures Sum(c, p + [e]) == Sum(c, p) + LineBytes(c, e)
  {
    if p != [] {
      SetNew(c, p[1..], e);
      assert (p + [e])[1..] == p[1..] + [e];
    }
  }

  lemma {:induction false} DeleteProperties(c: Codec, p: seq<QueueEntry>, id: nat, bound: nat)
    requires Ascending(p) && Below(p, bound)
    ensures Ascending(DeleteEntry(p, id)) && Below(DeleteEntry(p, id), bound)
    ensures Find(p, id).Some? ==> Sum(c, DeleteEntry(p, id)) == Sum(c, p) - LineBytes(c, Find(p, id).value)
    ensures Find(p, id).None? ==> DeleteEntry(p, id) == p
    ensures forall e :: e in DeleteEntry(p, id) ==> e in p
  {
    if p != [] && p[0].id != id {
      var rest := DeleteEntry(p[1..], id);
      DeleteProperties(c, p[1..], id, bound);
      assert ([p[0]] + rest)[1..] == rest;
      forall j | 0 <= j < |rest| ensures p[0].id < rest[j].id {
        assert rest[j] in p[1..];
      }
    }
  }

  // ---------------------------------------------------------------- log text

  function Render(c: Codec, rs: seq<Record>): string {
    if rs == [] then "" else c.ser(rs[0]) + ['\n'] + Render(c, rs[1..])
  }

  lemma {:induction false} RenderAppend(c: Codec, rs: seq<Record>, r: Record)
    ensures Render(c, rs + [r]) == Render(c, rs) + (c.ser(r) + ['\n'])
  {
    if rs == [] {
      assert [r][1..] == [];
    } else {
      RenderAppend(c, rs[1..], r);
      assert (rs + [r])[1..] == rs[1..] + [r];
    }
  }

  datatype Mem = Mem(pending: seq<QueueEntry>, nextId: nat, bytesUsed: int, logFileBytes: nat)

  const Fresh: Mem := Mem([], 1, 0, 0)

  function Clamp(n: int): int {
    if n < 0 then 0 else n
  }

  /** One line of the log, read back. */
  function ReplayRecord(c: Codec, m: Mem, r: Record): Mem {
    match r
    case Op(e) =>
      m.(pending := SetEntry(m.pending, e),
         bytesUsed := m.bytesUsed + LineBytes(c, e),
         nextId := if e.id >= m.nextId then e.id + 1 else m.nextId)
    case Completed(id, _) =>
      match Find(m.pending, id)
      case None => m
      case Some(dropped) =>
        m.(pending := DeleteEntry(m.pending, id), bytesUsed := Clamp(m.bytesUsed - LineBytes(c, dropped)))
  }

  function ReplayLine(c: Codec, m: Mem, line: string): Mem {
    match c.parse(line)
    case None => m
    case Some(r) => ReplayRecord(c, m, r)
  }

  function ReplayLines(c: Codec, m: Mem, lines: seq<string>): Mem
    decreases |lines|
  {
    if lines == [] then m else ReplayLines(c, ReplayLine(c, m, lines[0]), lines[1..])
  }

  function Fold(c: Codec, m: Mem, rs: seq<Record>): Mem
    decreases |rs|
  {
    if rs == [] then m else Fold(c, ReplayRecord(c, m, rs[0]), rs[1..])
  }

  /** `open`: read whatever log there is. */
  function Reopen(c: Codec, log: string): Mem {
    ReplayLines(c, Fresh.(logFileBytes := Utf8Len(log)), Split(log, '\n'))
  }

  lemma {:induction false} FoldAppend(c: Codec, m: Mem, rs: seq<Record>, r: Record)
    ensures Fold(c, m, rs + [r]) == ReplayRecord(c, Fold(c, m, rs), r)
    decreases |rs|
  {
    if rs == [] {
      assert [r][1..] == [];
      assert Fold(c, ReplayRecord(c, m, r), []) == ReplayRecord(c, m, r);
    } else {
      FoldAppend(c, ReplayRecord(c, m, rs[0]), rs[1..], r);
      assert (rs + [r])[1..] == rs[1..] + [r];
    }
  }

  /** Reading a rendered log back, with whatever follows its last newline. */
  lemma {:induction false} ReplayRendered(c: Codec, m: Mem, rs: seq<Record>, tail: string)
    requires Sound(c) && '\n' !in tail
    ensures ReplayLines(c, m, Split(Render(c, rs) + tail, '\n')) == ReplayLine(c, Fold(c, m, rs), tail)
    decreases |rs|
  {
    if rs == [] {
      assert Render(c, rs) + tail == tail;
      SplitPlain(tail, '\n');
      assert ReplayLines(c, ReplayLine(c, m, tail), []) == ReplayLine(c, m, tail);
    } else {
      var line, rest := c.ser(rs[0]), Render(c, rs[1..]) + tail;
      assert Render(c, rs) + tail == line + ['\n'] + rest;
      SplitConcat(line, rest, '\n');
      SplitPlain(line, '\n');
      assert ([line] + Split(rest, '\n'))[1..] == Split(rest, '\n');
      ReplayRendered(c, ReplayRecord(c, m, rs[0]), rs[1..], tail);
    }
  }

  lemma {:induction false} FoldIgnoresLogSize(c: Codec, m: Mem, rs: seq<Record>, n: nat)
    ensures Fold(c, m.(logFileBytes := n), rs) == Fold(c, m, rs).(logFileBytes := n)
    decreases |rs|
  {
    if rs != [] {
      FoldIgnoresLogSize(c, ReplayRecord(c, m, rs[0]), rs[1..], n);
    }
  }

  /** Reopening a log whose last append was cut off anywhere: with the record or without it. */
  lemma {:induction false} ReopenTorn(c: Codec, rs: seq<Record>, r: Record, k: nat)
    requires Sound(c) && k <= |c.ser(r)| + 1
    ensures var log := Render(c, rs) + (c.ser(r) + ['\n'])[..k];
            Reopen(c, log) == (if k < |c.ser(r)| then Fold(c, Fresh, rs) else Fold(c, Fresh, rs + [r])).(logFileBytes := Utf8Len(log))
  {
    var line := c.ser(r);
    var log := Render(c, rs) + (line + ['\n'])[..k];
    var start := Fresh.(logFileBytes := Utf8Len(log));
    FoldIgnoresLogSize(c, Fresh, rs, Utf8Len(log));
    FoldIgnoresLogSize(c, Fresh, rs + [r], Utf8Len(log));
    FoldAppend(c, start, rs, r);
    if k <= |line| {
      assert (line + ['\n'])[..k] == line[..k];
      assert '\n' !in line[..k];
      assert line[..|line|] == line;
      ReplayRendered(c, start, rs, line[..k]);
    } else {
      RenderAppend(c, rs, r);
      assert log == Render(c, rs + [r]) + "";
      ReplayRendered(c, start, rs + [r], "");
    }
  }

  /** The same when the cut went through a character. */
  lemma {:induction false} ReopenSplitChar(c: Codec, rs: seq<Record>, r: Record, k: nat)
    requires Sound(c) && k < |c.ser(r)|
    ensures var log := Render(c, rs) + (c.ser(r)[..k] + [REPLACEMENT]);
            Reopen(c, log) == Fold(c, Fresh, rs).(logFileBytes := Utf8Len(log))
  {
    var part := c.ser(r)[..k] + [REPLACEMENT];
    var log := Render(c, rs) + part;
    FoldIgnoresLogSize(c, Fresh, rs, Utf8Len(log));
    assert '\n' !in part;
    ReplayRendered(c, Fresh.(logFileBytes := Utf8Len(log)), rs, part);
  }

  // ---------------------------------------------------------------- disk and operations

  datatype Disk = Disk(log: string, tmp: string)
  datatype DiskStep = AppendLog(text: string) | WriteTmp(text: string) | RenameTmp

  function DoStep(d: Disk, s: DiskStep): Disk {
    match s
    case AppendLog(text) => d.(log := d.log + text)
    case WriteTmp(text) => d.(tmp := text)
    case RenameTmp => Disk(d.tmp, "")
  }

  function DoSteps(d: Disk, steps: seq<DiskStep>): Disk
    decreases |steps|
  {
    if steps == [] then d else DoSteps(DoStep(d, steps[0]), steps[1..])
  }

  /** The text reads as this when writing it was cut off: between two characters, or inside one of several bytes. */
  ghost predicate PartOf(part: string, text: string) {
    || (exists k | 0 <= k <= |text| :: part == text[..k])
    || (exists k | 0 <= k < |text| :: text[k] as int >= 0x80 && part == text[..k] + [REPLACEMENT])
  }

  /** The disks a crash can leave while these steps run: a prefix of them, the next one cut off. */
  ghost predicate CrashLeaves(d: Disk, steps: seq<DiskStep>, left: Disk)
    decreases |steps|
  {
    left == d ||
    (steps != [] &&
     (CrashLeaves(DoStep(d, steps[0]), steps[1..], left) ||
      (steps[0].AppendLog? && d.log <= left.log && left.tmp == d.tmp && PartOf(left.log[|d.log|..], steps[0].text)) ||
      (steps[0].WriteTmp? && left.log == d.log && PartOf(left.tmp, steps[0].text))))
  }

  datatype Request = Enqueue(op: QueuedOp, ts: int) | Complete(id: nat, ts: int) | Compact | Clear

  datatype Store = Store(disk: Disk, mem: Mem)

  function OpsOf(p: seq<QueueEntry>): seq<Record> {
    if p == [] then [] else [Op(p[0])] + OpsOf(p[1..])
  }

  function Rewrite(c: Codec, p: seq<QueueEntry>): seq<DiskStep> {
    [WriteTmp(Render(c, OpsOf(p))), RenameTmp]
  }

  predicate ShouldCompact(m: Mem) {
    m.logFileBytes > if 4 * 1024 >= m.bytesUsed * 2 then 4 * 1024 else m.bytesUsed * 2
  }

  function WithLog(c: Codec, m: Mem, p: seq<QueueEntry>): Mem {
    m.(logFileBytes := Utf8Len(Render(c, OpsOf(p))))
  }

  /** `Array.sort` by id. */
  function InsertById(e: QueueEntry, p: seq<QueueEntry>): seq<QueueEntry> {
    if p == [] || e.id <= p[0].id then [e] + p else [p[0]] + InsertById(e, p[1..])
  }

  function SortById(p: seq<QueueEntry>): seq<QueueEntry> {
    if p == [] then [] else InsertById(p[0], SortById(p[1..]))
  }

  lemma {:induction false} SortedStays(p: seq<QueueEntry>)
    requires Ascending(p)
    ensures SortById(p) == p
  {
    if p != [] {
      SortedStays(p[1..]);
    }
  }

  /** Memory after the tombstone is written and before compaction is considered. */
  function Tombstoned(c: Codec, m: Mem, e: QueueEntry, ts: int): Mem {
    m.(logFileBytes := m.logFileBytes + Utf8Len(c.ser(Completed(e.id, ts))) + 1,
       pending := DeleteEntry(m.pending, e.id),
       bytesUsed := Clamp(m.bytesUsed - LineBytes(c, e)))
  }

  /** What a request does to memory, and in which steps it does it on disk. */
  function Plan(c: Codec, maxBytes: nat, m: Mem, request: Request): (Mem, seq<DiskStep>) {
    match request
    case Enqueue(op, ts) =>
      var e := QueueEntry(m.nextId, ts, op);
      if m.bytesUsed + LineBytes(c, e) > maxBytes then (m, [])
      else
        (Mem(SetEntry(m.pending, e), m.nextId + 1, m.bytesUsed + LineBytes(c, e), m.logFileBytes + LineBytes(c, e) + 1),
         [AppendLog(c.ser(Op(e)) + ['\n'])])
    case Complete(id, ts) =>
      (match Find(m.pending, id)
       case None => (m, [])
       case Some(e) =>
         var m' := Tombstoned(c, m, e, ts);
         var tombstone := [AppendLog(c.ser(Completed(id, ts)) + ['\n'])];
         if ShouldCompact(m') then (WithLog(c, m', SortById(m'.pending)), tombstone + Rewrite(c, SortById(m'.pending)))
         else (m', tombstone))
    case Compact => (WithLog(c, m, SortById(m.pending)), Rewrite(c, SortById(m.pending)))
    case Clear => (Mem([], m.nextId, 0, 0), Rewrite(c, []))
  }

  function After(c: Codec, maxBytes: nat, st: Store, request: Request): Store {
    Store(DoSteps(st.disk, Plan(c, maxBytes, st.mem, request).1), Plan(c, maxBytes, st.mem, request).0)
  }

  // ---------------------------------------------------------------- invariant

  /** The log is the rendering of `rs`, and memory is what reading it back gives. */
  ghost predicate Represents(c: Codec, st: Store, rs: seq<Record>) {
    var m, back := st.mem, Fold(c, Fresh, rs);
    && st.disk.log == Render(c, rs)
    && m.logFileBytes == Utf8Len(st.disk.log)
    && m.pending == back.pending && m.bytesUsed == back.bytesUsed && back.nextId <= m.nextId
    && Ascending(m.pending) && Below(m.pending, back.nextId)
    && m.bytesUsed == Sum(c, m.pending)
  }

  lemma {:induction false} FoldOps(c: Codec, m: Mem, p: seq<QueueEntry>, bound: nat)
    requires Below(p, bound) && m.nextId <= bound
    requires Ascending(m.pending + p) && Below(m.pending, m.nextId) && m.bytesUsed == Sum(c, m.pending)
    ensures var back := Fold(c, m, OpsOf(p));
            && back.pending == m.pending + p && back.bytesUsed == Sum(c, m.pending + p)
            && Below(m.pending + p, back.nextId)
            && back.nextId <= bound
    decreases |p|
  {
    if p == [] {
      assert m.pending + p == m.pending;
    } else {
      var e := p[0];
      var m' := ReplayRecord(c, m, Op(e));
      assert forall i | 0 <= i < |m.pending| :: (m.pending + p)[i] == m.pending[i];
      assert (m.pending + p)[|m.pending|] == e;
      SetNew(c, m.pending, e);
      assert m'.pending + p[1..] == m.pending + p;
      assert OpsOf(p)[1..] == OpsOf(p[1..]);
      FoldOps(c, m', p[1..], bound);
    }
  }

  function RecordsAfter(c: Codec, maxBytes: nat, m: Mem, rs: seq<Record>, request: Request): seq<Record> {
    match request
    case Enqueue(op, ts) =>
      var e := QueueEntry(m.nextId, ts, op);
      if m.bytesUsed + LineBytes(c, e) > maxBytes then rs else rs + [Op(e)]
    case Complete(id, ts) =>
      (match Find(m.pending, id)
       case None => rs
       case Some(e) =>
         if ShouldCompact(Tombstoned(c, m, e, ts)) then OpsOf(Tombstoned(c, m, e, ts).pending)
         else rs + [Completed(id, ts)])
    case Compact => OpsOf(m.pending)
    case Clear => []
  }

  lemma {:induction false} OneStep(d: Disk, s: DiskStep)
    ensures DoSteps(d, [s]) == DoStep(d, s)
  {
    assert [s][1..] == [];
    assert DoSteps(DoStep(d, s), []) == DoStep(d, s);
  }

  lemma {:induction false} RewriteSteps(c: Codec, d: Disk, p: seq<QueueEntry>)
    ensures DoSteps(d, Rewrite(c, p)) == Disk(Render(c, OpsOf(p)), "")
  {
    var steps := Rewrite(c, p);
    assert steps[1..] == [RenameTmp];
    OneStep(DoStep(d, steps[0]), RenameTmp);
  }

  lemma {:induction false} DoStepsConcat(d: Disk, x: seq<DiskStep>, y: seq<DiskStep>)
    ensures DoSteps(d, x + y) == DoSteps(DoSteps(d, x), y)
    decreases |x|
  {
    if x == [] {
      assert x + y == y;
    } else {
      DoStepsConcat(DoStep(d, x[0]), x[1..], y);
      assert (x + y)[1..] == x[1..] + y;
    }
  }

  /** Rewriting keeps the pending entries and drops every tombstone. */
  lemma {:induction false} RewriteKeeps(c: Codec, st: Store, rs: seq<Record>, disk: Disk)
    requires Represents(c, st, rs) && disk.log == Render(c, OpsOf(st.mem.pending))
    ensures SortById(st.mem.pending) == st.mem.pending
    ensures Represents(c, Store(disk, WithLog(c, st.mem, st.mem.pending)), OpsOf(st.mem.pending))
  {
    SortedStays(st.mem.pending);
    assert Fresh.pending + st.mem.pending == st.mem.pending;
    FoldNextId(c, rs);
    FoldOps(c, Fresh, st.mem.pending, Fold(c, Fresh, rs).nextId);
  }

  lemma EnqueueKeeps(c: Codec, maxBytes: nat, st: Store, rs: seq<Record>, op: QueuedOp, ts: int)
    requires Sound(c) && Represents(c, st, rs)
    ensures Represents(c, After(c, maxBytes, st, Enqueue(op, ts)), RecordsAfter(c, maxBytes, st.mem, rs, Enqueue(op, ts)))
  {
    var e := QueueEntry(st.mem.nextId, ts, op);
    if st.mem.bytesUsed + LineBytes(c, e) <= maxBytes {
      OneStep(st.disk, AppendLog(c.ser(Op(e)) + ['\n']));
      RenderAppend(c, rs, Op(e));
      FoldAppend(c, Fresh, rs, Op(e));
      SetNew(c, st.mem.pending, e);
      AppendedSize(st.disk.log, c.ser(Op(e)));
    } else {
      assert DoSteps(st.disk, []) == st.disk;
    }
  }

  lemma {:induction false} AppendedSize(log: string, line: string)
    ensures Utf8Len(log + (line + ['\n'])) == Utf8Len(log) + Utf8Len(line) + 1
  {
    Utf8LenConcat(log, line + ['\n']);
    Utf8LenConcat(line, ['\n']);
    assert ['\n'][1..] == "";
  }

  /** The tombstone alone: the entry goes, and the clamp to zero has nothing to do. */
  lemma TombstoneKeeps(c: Codec, st: Store, rs: seq<Record>, e: QueueEntry, ts: int)
    requires Sound(c) && Represents(c, st, rs) && Find(st.mem.pending, e.id) == Some(e)
    ensures var d := DoStep(st.disk, AppendLog(c.ser(Completed(e.id, ts)) + ['\n']));
            && Represents(c, Store(d, Tombstoned(c, st.mem, e, ts)), rs + [Completed(e.id, ts)])
            && Tombstoned(c, st.mem, e, ts).bytesUsed == st.mem.bytesUsed - LineBytes(c, e)
  {
    var r := Completed(e.id, ts);
    RenderAppend(c, rs, r);
    FoldAppend(c, Fresh, rs, r);
    AppendedSize(st.disk.log, c.ser(r));
    DeleteProperties(c, st.mem.pending, e.id, Fold(c, Fresh, rs).nextId);
  }

  lemma {:induction false} FindHasId(p: seq<QueueEntry>, id: nat)
    ensures Find(p, id).Some? ==> Find(p, id).value.id == id
  {
    if p != [] { FindHasId(p[1..], id); }
  }

  lemma CompleteKeeps(c: Codec, maxBytes: nat, st: Store, rs: seq<Record>, id: nat, ts: int)
    requires Sound(c) && Represents(c, st, rs)
    ensures Represents(c, After(c, maxBytes, st, Complete(id, ts)), RecordsAfter(c, maxBytes, st.mem, rs, Complete(id, ts)))
  {
    var found := Find(st.mem.pending, id);
    if found.Some? {
      var e := found.value;
      FindHasId(st.mem.pending, id);
      TombstoneKeeps(c, st, rs, e, ts);
      var m' := Tombstoned(c, st.mem, e, ts);
      var step := AppendLog(c.ser(Completed(id, ts)) + ['\n']);
      var d := DoStep(st.disk, step);
      OneStep(st.disk, step);
      if ShouldCompact(m') {
        SortedStays(m'.pending);
        DoStepsConcat(st.disk, [step], Rewrite(c, m'.pending));
        RewriteSteps(c, d, m'.pending);
        RewriteKeeps(c, Store(d, m'), rs + [Completed(id, ts)], Disk(Render(c, OpsOf(m'.pending)), ""));
      }
    } else {
      assert DoSteps(st.disk, []) == st.disk;
    }
  }

  /** Every request keeps log and memory in step. */
  lemma RequestKeeps(c: Codec, maxBytes: nat, st: Store, rs: seq<Record>, request: Request)
    requires Sound(c) && Represents(c, st, rs)
    ensures Represents(c, After(c, maxBytes, st, request), RecordsAfter(c, maxBytes, st.mem, rs, request))
  {
    match request
    case Enqueue(op, ts) => EnqueueKeeps(c, maxBytes, st, rs, op, ts);
    case Complete(id, ts) => CompleteKeeps(c, maxBytes, st, rs, id, ts);
    case Compact =>
      SortedStays(st.mem.pending);
      RewriteSteps(c, st.disk, st.mem.pending);
      RewriteKeeps(c, st, rs, Disk(Render(c, OpsOf(st.mem.pending)), ""));
    case Clear =>
      RewriteSteps(c, st.disk, []);
      FoldNextId(c, rs);
  }

  /**
   What each request does to the entries themselves: an operation is taken exactly while the bytes pending and
   its own fit, and comes last under the next id; completing takes out that entry and no other.
   */
  lemma {:induction false} RequestMeans(c: Codec, maxBytes: nat, st: Store, rs: seq<Record>, request: Request)
    requires Sound(c) && Represents(c, st, rs)
    ensures var was, now := st.mem, After(c, maxBytes, st, request).mem;
            match request
            case Enqueue(op, ts) =>
              var e := QueueEntry(was.nextId, ts, op);
              if Sum(c, was.pending) + Utf8Len(c.ser(Op(e))) <= maxBytes
              then now.pending == was.pending + [e] && now.nextId == was.nextId + 1
              else After(c, maxBytes, st, request) == st
            case Complete(id, _) =>
              && now.nextId == was.nextId
              && (forall i | 0 <= i < |was.pending| && was.pending[i].id == id :: now.pending == was.pending[..i] + was.pending[i + 1..])
              && ((forall i | 0 <= i < |was.pending| :: was.pending[i].id != id) ==> After(c, maxBytes, st, request) == st)
            case Compact => now.pending == was.pending && now.nextId == was.nextId
            case Clear => now.pending == [] && now.nextId == was.nextId
  {
    match request
    case Enqueue(op, ts) => SetNew(c, st.mem.pending, QueueEntry(st.mem.nextId, ts, op));
    case Complete(id, ts) =>
      FoundAt(st.mem.pending, id);
      DeleteProperties(c, st.mem.pending, id, Fold(c, Fresh, rs).nextId);
      SortedStays(DeleteEntry(st.mem.pending, id));
    case Compact => SortedStays(st.mem.pending);
    case Clear =>
  }

  lemma {:induction false} FoundAt(p: seq<QueueEntry>, id: nat)
    requires Ascending(p)
    ensures Find(p, id).Some? <==> exists i :: 0 <= i < |p| && p[i].id == id
    ensures forall i | 0 <= i < |p| && p[i].id == id :: Find(p, id) == Some(p[i]) && DeleteEntry(p, id) == p[..i] + p[i + 1..]
  {
    if p != [] && p[0].id != id {
      FoundAt(p[1..], id);
      forall i | 0 <= i < |p| && p[i].id == id ensures Find(p, id) == Some(p[i]) && DeleteEntry(p, id) == p[..i] + p[i + 1..] {
        assert p[1..][i - 1].id == id;
        assert p[..i] == [p[0]] + p[1..][..i - 1];
      }
    }
  }

  // ---------------------------------------------------------------- ids

  ghost predicate HasOp(rs: seq<Record>, id: nat) {
    exists i :: 0 <= i < |rs| && rs[i].Op? && rs[i].entry.id == id
  }

  /** The id counter a reopened log yields is one past the largest id it still mentions. */
  lemma {:induction false} FoldNextId(c: Codec, rs: seq<Record>)
    ensures var n := Fold(c, Fresh, rs).nextId;
            && n >= 1 && (n == 1 || HasOp(rs, n - 1))
            && forall i | 0 <= i < |rs| && rs[i].Op? :: rs[i].entry.id < n
  {
    if rs != [] {
      var front, last := rs[..|rs| - 1], rs[|rs| - 1];
      assert rs == front + [last];
      FoldNextId(c, front);
      FoldAppend(c, Fresh, front, last);
      var was := Fold(c, Fresh, front).nextId;
      if was > 1 {
        var i :| 0 <= i < |front| && front[i].Op? && front[i].entry.id == was - 1;
        assert rs[i] == front[i];
      }
      forall i | 0 <= i < |rs| && rs[i].Op? ensures rs[i].entry.id < Fold(c, Fresh, rs).nextId {
        assert i < |front| ==> rs[i] == front[i];
      }
    }
  }

  /** Restarting on the disk a completed request left. */
  function Restarted(c: Codec, st: Store): Store {
    Store(st.disk, Reopen(c, st.disk.log))
  }

  /**
   A restart changes nothing but perhaps the id counter. The counter survives exactly when nothing
   was ever queued or the log still holds the last id handed out; compaction can take that away.
   */
  lemma RestartKeeps(c: Codec, st: Store, rs: seq<Record>)
    requires Sound(c) && Represents(c, st, rs)
    ensures Represents(c, Restarted(c, st), rs)
    ensures Restarted(c, st).mem.(nextId := st.mem.nextId) == st.mem
    ensures st.mem.nextId >= 1
    ensures Restarted(c, st).mem.nextId == st.mem.nextId <==> st.mem.nextId == 1 || HasOp(rs, st.mem.nextId - 1)
  {
    assert Render(c, rs) + "" == Render(c, rs);
    ReplayRendered(c, Fresh.(logFileBytes := Utf8Len(st.disk.log)), rs, "");
    FoldIgnoresLogSize(c, Fresh, rs, Utf8Len(st.disk.log));
    FoldNextId(c, rs);
  }

  /** An id handed out before a discard is handed out again after a restart. */
  lemma IdsReusedAfterClear(c: Codec, maxBytes: nat, op: QueuedOp, ts: int)
    requires Sound(c) && LineBytes(c, QueueEntry(1, ts, op)) <= maxBytes
    ensures var empty := Store(Disk("", ""), Fresh);
            var queued := After(c, maxBytes, empty, Enqueue(op, ts));
            var again := After(c, maxBytes, Restarted(c, After(c, maxBytes, queued, Clear)), Enqueue(op, ts));
            queued.mem.nextId == 2 && again.mem.pending == queued.mem.pending == [QueueEntry(1, ts, op)]
  {
    var empty := Store(Disk("", ""), Fresh);
    var queued := After(c, maxBytes, empty, Enqueue(op, ts));
    RewriteSteps(c, queued.disk, []);
    assert Split("", '\n') == [""];
    assert ReplayLines(c, Fresh, [""]) == ReplayLines(c, Fresh, [""][1..]);
  }

  // ---------------------------------------------------------------- crashes

  /**
   Crash safety: whatever a crash during a request leaves on disk, reopening yields the pending
   entries from before the request or from after it.
   */
  lemma {:induction false} CrashSafe(c: Codec, maxBytes: nat, st: Store, rs: seq<Record>, request: Request, left: Disk)
    requires Sound(c) && Represents(c, st, rs)
    requires CrashLeaves(st.disk, Plan(c, maxBytes, st.mem, request).1, left)
    ensures Reopen(c, left.log).pending == st.mem.pending
            || Reopen(c, left.log).pending == After(c, maxBytes, st, request).mem.pending
  {
    match request
    case Enqueue(op, ts) => CrashedEnqueue(c, maxBytes, st, rs, op, ts, left);
    case Complete(id, ts) =>
      if Find(st.mem.pending, id).Some? {
        CrashedComplete(c, maxBytes, st, rs, id, ts, left);
        FindHasId(st.mem.pending, id);
      } else {
        ReopenWhole(c, rs);
      }
    case Compact => CrashedCompact(c, st, rs, left);
    case Clear => CrashedClear(c, st, rs, left);
  }

  lemma {:induction false} CrashedEnqueue(c: Codec, maxBytes: nat, st: Store, rs: seq<Record>, op: QueuedOp, ts: int, left: Disk)
    requires Sound(c) && Represents(c, st, rs)
    requires CrashLeaves(st.disk, Plan(c, maxBytes, st.mem, Enqueue(op, ts)).1, left)
    ensures Reopen(c, left.log).pending == st.mem.pending
            || Reopen(c, left.log).pending == Plan(c, maxBytes, st.mem, Enqueue(op, ts)).0.pending
  {
    var e := QueueEntry(st.mem.nextId, ts, op);
    if Plan(c, maxBytes, st.mem, Enqueue(op, ts)).1 == [] {
      ReopenWhole(c, rs);
    } else {
      FoldAppend(c, Fresh, rs, Op(e));
      assert [AppendLog(c.ser(Op(e)) + ['\n'])] + [] == [AppendLog(c.ser(Op(e)) + ['\n'])];
      CrashedAppend(c, st.disk, rs, Op(e), [], left);
    }
  }

  lemma {:induction false} CrashedCompact(c: Codec, st: Store, rs: seq<Record>, left: Disk)
    requires Sound(c) && Represents(c, st, rs)
    requires CrashLeaves(st.disk, Rewrite(c, SortById(st.mem.pending)), left)
    ensures Reopen(c, left.log).pending == st.mem.pending
  {
    ReopenWhole(c, rs);
    SortedStays(st.mem.pending);
    FoldNextId(c, rs);
    CrashedRewriteOf(c, st.disk, st.mem, Fold(c, Fresh, rs).nextId, left);
  }

  lemma {:induction false} CrashedClear(c: Codec, st: Store, rs: seq<Record>, left: Disk)
    requires Sound(c) && Represents(c, st, rs)
    requires CrashLeaves(st.disk, Rewrite(c, []), left)
    ensures Reopen(c, left.log).pending == st.mem.pending || Reopen(c, left.log).pending == []
  {
    ReopenWhole(c, rs);
    CrashedRewrite(c, st.disk, [], left);
    ReopenWhole(c, []);
  }

  lemma {:induction false} CrashedComplete(c: Codec, maxBytes: nat, st: Store, rs: seq<Record>, id: nat, ts: int, left: Disk)
    requires Sound(c) && Represents(c, st, rs) && Find(st.mem.pending, id).Some?
    requires CrashLeaves(st.disk, Plan(c, maxBytes, st.mem, Complete(id, ts)).1, left)
    ensures Reopen(c, left.log).pending == st.mem.pending
            || Reopen(c, left.log).pending == DeleteEntry(st.mem.pending, id)
  {
    var e, r := Find(st.mem.pending, id).value, Completed(id, ts);
    FindHasId(st.mem.pending, id);
    TombstoneKeeps(c, st, rs, e, ts);
    var m' := Tombstoned(c, st.mem, e, ts);
    SortedStays(m'.pending);
    var rewrite := if ShouldCompact(m') then Rewrite(c, m'.pending) else [];
    assert Plan(c, maxBytes, st.mem, Complete(id, ts)).1 == [AppendLog(c.ser(r) + ['\n'])] + rewrite;
    CrashedAppend(c, st.disk, rs, r, rewrite, left);
    if ShouldCompact(m') {
      FoldNextId(c, rs + [r]);
      CrashedRewriteOf(c, DoStep(st.disk, AppendLog(c.ser(r) + ['\n'])), m', Fold(c, Fresh, rs + [r]).nextId, left);
      ReopenWhole(c, rs + [r]);
      RenderAppend(c, rs, r);
    }
  }

  lemma {:induction false} ReopenWhole(c: Codec, rs: seq<Record>)
    requires Sound(c)
    ensures Reopen(c, Render(c, rs)).pending == Fold(c, Fresh, rs).pending
  {
    var log := Render(c, rs);
    assert log + "" == log;
    ReplayRendered(c, Fresh.(logFileBytes := Utf8Len(log)), rs, "");
    FoldIgnoresLogSize(c, Fresh, rs, Utf8Len(log));
  }

  /** A crash in an append, or in what follows it. */
  lemma {:induction false} CrashedAppend(c: Codec, d: Disk, rs: seq<Record>, r: Record, rest: seq<DiskStep>, left: Disk)
    requires Sound(c) && d.log == Render(c, rs)
    requires CrashLeaves(d, [AppendLog(c.ser(r) + ['\n'])] + rest, left)
    ensures Reopen(c, left.log).pending == Fold(c, Fresh, rs).pending
            || Reopen(c, left.log).pending == Fold(c, Fresh, rs + [r]).pending
            || CrashLeaves(DoStep(d, AppendLog(c.ser(r) + ['\n'])), rest, left)
    ensures rest == [] ==>
              Reopen(c, left.log).pending == Fold(c, Fresh, rs).pending
              || Reopen(c, left.log).pending == Fold(c, Fresh, rs + [r]).pending
  {
    var text := c.ser(r) + ['\n'];
    var steps := [AppendLog(text)] + rest;
    assert steps[1..] == rest;
    forall part | PartOf(part, text)
      ensures var p := Reopen(c, d.log + part).pending;
              p == Fold(c, Fresh, rs).pending || p == Fold(c, Fresh, rs + [r]).pending
    {
      CutAppend(c, rs, r, part);
    }
    assert text[..0] == "" && d.log + "" == d.log;
    assert text[..|text|] == text;
    assert PartOf("", text) && PartOf(text, text);
    assert d.log <= left.log ==> left.log == d.log + left.log[|d.log|..];
  }

  lemma {:induction false} CutAppend(c: Codec, rs: seq<Record>, r: Record, part: string)
    requires Sound(c) && PartOf(part, c.ser(r) + ['\n'])
    ensures var p := Reopen(c, Render(c, rs) + part).pending;
            p == Fold(c, Fresh, rs).pending || p == Fold(c, Fresh, rs + [r]).pending
  {
    var text := c.ser(r) + ['\n'];
    if k: nat :| k <= |text| && part == text[..k] {
      ReopenTorn(c, rs, r, k);
    } else {
      var k: nat :| k < |text| && text[k] as int >= 0x80 && part == text[..k] + [REPLACEMENT];
      assert k < |c.ser(r)| && text[..k] == c.ser(r)[..k];
      ReopenSplitChar(c, rs, r, k);
    }
  }

  /** A crash in a rewrite: the rename is the only step the log sees. */
  lemma {:induction false} CrashedRewrite(c: Codec, d: Disk, p: seq<QueueEntry>, left: Disk)
    requires CrashLeaves(d, Rewrite(c, p), left)
    ensures left.log == d.log || left.log == Render(c, OpsOf(p))
  {
    var steps := Rewrite(c, p);
    var written := DoStep(d, steps[0]);
    assert steps[1..] == [RenameTmp] && [RenameTmp][1..] == [];
    assert CrashLeaves(written, [RenameTmp], left) ==> left == written || CrashLeaves(DoStep(written, RenameTmp), [], left);
  }

  lemma {:induction false} CrashedRewriteOf(c: Codec, d: Disk, m: Mem, bound: nat, left: Disk)
    requires Sound(c) && Ascending(m.pending) && bound >= 1 && Below(m.pending, bound)
    ensures CrashLeaves(d, Rewrite(c, m.pending), left) ==>
              left.log == d.log || Reopen(c, left.log).pending == m.pending
  {
    if CrashLeaves(d, Rewrite(c, m.pending), left) {
      CrashedRewrite(c, d, m.pending, left);
      ReopenWhole(c, OpsOf(m.pending));
      assert Fresh.pending + m.pending == m.pending;
      FoldOps(c, Fresh, m.pending, bound);
    }
  }

  ghost predicate NewlineTerminated(log: string) {
    log == "" || log[|log| - 1] == '\n'
  }

  /** A log with its newlines intact is a rendered log, so the queue that reopens it is sound again. */
  lemma {:induction false} CrashedLogIsWhole(c: Codec, maxBytes: nat, st: Store, rs: seq<Record>, request: Request, left: Disk)
    requires Sound(c) && Represents(c, st, rs)
    requires CrashLeaves(st.disk, Plan(c, maxBytes, st.mem, request).1, left) && NewlineTerminated(left.log)
    ensures exists rs' :: Represents(c, Store(left, Reopen(c, left.log)), rs')
  {
    var rs' := CrashedRecords(c, maxBytes, st, rs, request, left);
    var back := Store(left, Fold(c, Fresh, rs').(logFileBytes := Utf8Len(left.log)));
    assert Render(c, rs') + "" == left.log;
    ReplayRendered(c, Fresh.(logFileBytes := Utf8Len(left.log)), rs', "");
    FoldIgnoresLogSize(c, Fresh, rs', Utf8Len(left.log));
    assert Reopen(c, left.log) == back.mem;
    assert Represents(c, Store(left, Reopen(c, left.log)), rs');
  }

  /** Which records survived: those before the request, those after its append, or a rewrite of what is pending. */
  lemma CrashedRecords(c: Codec, maxBytes: nat, st: Store, rs: seq<Record>, request: Request, left: Disk) returns (rs': seq<Record>)
    requires Sound(c) && Represents(c, st, rs)
    requires CrashLeaves(st.disk, Plan(c, maxBytes, st.mem, request).1, left) && NewlineTerminated(left.log)
    ensures left.log == Render(c, rs')
    ensures exists m :: Represents(c, Store(left, m), rs')
  {
    var steps := Plan(c, maxBytes, st.mem, request).1;
    RequestKeeps(c, maxBytes, st, rs, request);
    var after := RecordsAfter(c, maxBytes, st.mem, rs, request);
    if left.log == st.disk.log {
      rs' := rs;
      assert Represents(c, Store(left, st.mem), rs);
    } else {
      match request
      case Enqueue(op, ts) =>
        var e := QueueEntry(st.mem.nextId, ts, op);
        assert [AppendLog(c.ser(Op(e)) + ['\n'])] + [] == [AppendLog(c.ser(Op(e)) + ['\n'])];
        WholeAppend(c, st.disk, rs, Op(e), [], left);
        rs' := after;
        assert Represents(c, Store(left, After(c, maxBytes, st, request).mem), rs');
      case Complete(id, ts) =>
        rs' := CrashedCompleteRecords(c, maxBytes, st, rs, id, ts, left);
      case Compact =>
        SortedStays(st.mem.pending);
        CrashedRewrite(c, st.disk, st.mem.pending, left);
        rs' := after;
        assert Represents(c, Store(left, After(c, maxBytes, st, request).mem), rs');
      case Clear =>
        CrashedRewrite(c, st.disk, [], left);
        rs' := after;
        assert Represents(c, Store(left, After(c, maxBytes, st, request).mem), rs');
    }
  }

  lemma CrashedCompleteRecords(c: Codec, maxBytes: nat, st: Store, rs: seq<Record>, id: nat, ts: int, left: Disk)
    returns (rs': seq<Record>)
    requires Sound(c) && Represents(c, st, rs) && left.log != st.disk.log
    requires CrashLeaves(st.disk, Plan(c, maxBytes, st.mem, Complete(id, ts)).1, left) && NewlineTerminated(left.log)
    ensures left.log == Render(c, rs')
    ensures exists m :: Represents(c, Store(left, m), rs')
  {
    var e, r := Find(st.mem.pending, id).value, Completed(id, ts);
    FindHasId(st.mem.pending, id);
    TombstoneKeeps(c, st, rs, e, ts);
    CompleteKeeps(c, maxBytes, st, rs, id, ts);
    var m' := Tombstoned(c, st.mem, e, ts);
    SortedStays(m'.pending);
    var rewrite := if ShouldCompact(m') then Rewrite(c, m'.pending) else [];
    assert Plan(c, maxBytes, st.mem, Complete(id, ts)).1 == [AppendLog(c.ser(r) + ['\n'])] + rewrite;
    WholeAppend(c, st.disk, rs, r, rewrite, left);
    if left.log == Render(c, rs + [r]) {
      rs' := rs + [r];
      assert Represents(c, Store(left, m'), rs');
    } else {
      var d := DoStep(st.disk, AppendLog(c.ser(r) + ['\n']));
      RenderAppend(c, rs, r);
      CrashedRewrite(c, d, m'.pending, left);
      rs' := OpsOf(m'.pending);
      assert Represents(c, Store(left, After(c, maxBytes, st, Complete(id, ts)).mem), rs');
    }
  }

  /** An append cut short leaves no newline at the end. */
  lemma {:induction false} WholeAppend(c: Codec, d: Disk, rs: seq<Record>, r: Record, rest: seq<DiskStep>, left: Disk)
    requires Sound(c) && d.log == Render(c, rs) && left.log != d.log && NewlineTerminated(left.log)
    requires CrashLeaves(d, [AppendLog(c.ser(r) + ['\n'])] + rest, left)
    ensures left.log == Render(c, rs + [r]) || (rest != [] && CrashLeaves(DoStep(d, AppendLog(c.ser(r) + ['\n'])), rest, left))
  {
    var text := c.ser(r) + ['\n'];
    assert ([AppendLog(text)] + rest)[1..] == rest;
    RenderAppend(c, rs, r);
    if d.log <= left.log && PartOf(left.log[|d.log|..], text) {
      var part := left.log[|d.log|..];
      assert left.log == d.log + part && part != "" && part[|part| - 1] == '\n';
      WholePart(c.ser(r), part);
    }
  }

  lemma WholePart(line: string, part: string)
    requires PartOf(part, line + ['\n']) && '\n' !in line && part != "" && part[|part| - 1] == '\n'
    ensures part == line + ['\n']
  {
    var text := line + ['\n'];
    if k: nat :| k <= |text| && part == text[..k] {
      assert part[k - 1] == text[k - 1];
      assert k == |text| && text[..k] == text;
    }
  }

  // ---------------------------------------------------------------- runs and growth

  /** A request, a restart between requests, or a crash during a request followed by a restart. */
  datatype Happening = Does(request: Request) | Restarts | Crashes(during: Request, left: Disk)

  function Next(c: Codec, maxBytes: nat, st: Store, happening: Happening): Store {
    match happening
    case Does(request) => After(c, maxBytes, st, request)
    case Restarts => Restarted(c, st)
    case Crashes(_, left) => Store(left, Reopen(c, left.log))
  }

  function Run(c: Codec, maxBytes: nat, st: Store, run: seq<Happening>): Store
    decreases |run|
  {
    if run == [] then st else Run(c, maxBytes, Next(c, maxBytes, st, run[0]), run[1..])
  }

  /** Every crash in the run leaves a disk that its request could leave, with its newlines intact. */
  ghost predicate Possible(c: Codec, maxBytes: nat, st: Store, run: seq<Happening>)
    decreases |run|
  {
    run == [] ||
    (Possible(c, maxBytes, Next(c, maxBytes, st, run[0]), run[1..]) &&
     (run[0].Crashes? ==>
        CrashLeaves(st.disk, Plan(c, maxBytes, st.mem, run[0].during).1, run[0].left) && NewlineTerminated(run[0].left.log)))
  }

  lemma NextKeeps(c: Codec, maxBytes: nat, st: Store, rs: seq<Record>, happening: Happening) returns (rs': seq<Record>)
    requires Sound(c) && Represents(c, st, rs) && Possible(c, maxBytes, st, [happening])
    ensures Represents(c, Next(c, maxBytes, st, happening), rs')
  {
    match happening
    case Does(request) =>
      RequestKeeps(c, maxBytes, st, rs, request);
      rs' := RecordsAfter(c, maxBytes, st.mem, rs, request);
    case Restarts =>
      RestartKeeps(c, st, rs);
      rs' := rs;
    case Crashes(request, left) =>
      CrashedLogIsWhole(c, maxBytes, st, rs, request, left);
      rs' :| Represents(c, Store(left, Reopen(c, left.log)), rs');
  }

  ghost predicate Bounded(m: Mem) {
    m.logFileBytes <= 4 * 1024 + 2 * m.bytesUsed
  }

  lemma {:induction false} RenderedOpsSize(c: Codec, p: seq<QueueEntry>)
    requires Sound(c)
    ensures Utf8Len(Render(c, OpsOf(p))) <= 2 * Sum(c, p)
  {
    if p != [] {
      RenderedOpsSize(c, p[1..]);
      var line := c.ser(Op(p[0]));
      assert OpsOf(p)[1..] == OpsOf(p[1..]);
      AppendedSize("", line);
      assert "" + (line + ['\n']) == line + ['\n'];
      Utf8LenConcat(line + ['\n'], Render(c, OpsOf(p[1..])));
    }
  }

  /** Every request keeps the growth bound; a completion that did something meets the tighter one. */
  lemma RequestBounded(c: Codec, maxBytes: nat, st: Store, rs: seq<Record>, request: Request)
    requires Sound(c) && Represents(c, st, rs) && Bounded(st.mem)
    ensures Bounded(After(c, maxBytes, st, request).mem)
    ensures request.Complete? && Find(st.mem.pending, request.id).Some? ==>
              !ShouldCompact(After(c, maxBytes, st, request).mem)
  {
    RequestKeeps(c, maxBytes, st, rs, request);
    var m := After(c, maxBytes, st, request).mem;
    match request
    case Enqueue(op, ts) =>
    case Complete(id, ts) =>
      if Find(st.mem.pending, id).Some? { CompleteBounded(c, maxBytes, st, rs, id, ts); }
    case Compact =>
      SortedStays(st.mem.pending);
      RenderedOpsSize(c, st.mem.pending);
    case Clear =>
  }

  lemma {:induction false} CompleteBounded(c: Codec, maxBytes: nat, st: Store, rs: seq<Record>, id: nat, ts: int)
    requires Sound(c) && Represents(c, st, rs) && Find(st.mem.pending, id).Some?
    ensures var m := After(c, maxBytes, st, Complete(id, ts)).mem; Bounded(m) && !ShouldCompact(m)
  {
    var e := Find(st.mem.pending, id).value;
    var m := Tombstoned(c, st.mem, e, ts);
    FindHasId(st.mem.pending, id);
    TombstoneKeeps(c, st, rs, e, ts);
    SortedStays(m.pending);
    RenderedOpsSize(c, m.pending);
  }

  /**
   Over any run of requests, restarts and crashes: the recorded size is the true one, the byte total
   is the exact sum over what is pending, entries are in id order, and reopening would yield them.
   */
  lemma {:induction false} RunInvariant(c: Codec, maxBytes: nat, st: Store, rs: seq<Record>, run: seq<Happening>)
    requires Sound(c) && Represents(c, st, rs) && Possible(c, maxBytes, st, run)
    ensures var end := Run(c, maxBytes, st, run);
            && Ascending(end.mem.pending)
            && end.mem.logFileBytes == Utf8Len(end.disk.log) && end.mem.bytesUsed == Sum(c, end.mem.pending)
            && Reopen(c, end.disk.log).pending == end.mem.pending
    decreases |run|
  {
    if run == [] {
      RestartKeeps(c, st, rs);
    } else {
      var next := Next(c, maxBytes, st, run[0]);
      assert [run[0]][1..] == [];
      assert Possible(c, maxBytes, next, []);
      var rs' := NextKeeps(c, maxBytes, st, rs, run[0]);
      RunInvariant(c, maxBytes, next, rs', run[1..]);
    }
  }

  /** Without crashes the log is never larger than 4 KiB plus twice the live bytes. */
  lemma {:induction false} RunBounded(c: Codec, maxBytes: nat, st: Store, rs: seq<Record>, run: seq<Happening>)
    requires Sound(c) && Represents(c, st, rs) && Bounded(st.mem)
    requires forall i | 0 <= i < |run| :: !run[i].Crashes?
    ensures Bounded(Run(c, maxBytes, st, run).mem)
    decreases |run|
  {
    if run != [] {
      match run[0]
      case Does(request) =>
        RequestKeeps(c, maxBytes, st, rs, request);
        RequestBounded(c, maxBytes, st, rs, request);
        RunBounded(c, maxBytes, After(c, maxBytes, st, request), RecordsAfter(c, maxBytes, st.mem, rs, request), run[1..]);
      case Restarts =>
        RestartKeeps(c, st, rs);
        RunBounded(c, maxBytes, Restarted(c, st), rs, run[1..]);
    }
  }

  lemma EmptyRepresents(c: Codec)
    ensures Represents(c, Store(Disk("", ""), Fresh), []) && Bounded(Fresh)
  {
  }

  // ---------------------------------------------------------------- the queue object

  /** The two files the queue owns. */
  class FileSystem {
    var disk: Disk

    constructor ()
      ensures disk == Disk("", "")
    {
      disk := Disk("", "");
    }

    method AppendFile(text: string)
      modifies this
      ensures disk == DoStep(old(disk), AppendLog(text))
    {
      disk := disk.(log := disk.log + text);
    }

    method WriteTmpFile(text: string)
      modifies this
      ensures disk == DoStep(old(disk), WriteTmp(text))
    {
      disk := disk.(tmp := text);
    }

    method RenameTmpFile()
      modifies this
      ensures disk == DoStep(old(disk), RenameTmp)
    {
      disk := Disk(disk.tmp, "");
    }
  }

  class OfflineQueue {
    const codec: Codec
    const maxBytes: nat
    const files: FileSystem
    /** The pending Map, in insertion order. */
    var pendingMap: seq<QueueEntry>
    var nextId: nat
    var bytesUsed: int
    var logFileBytes: nat

    ghost function Now(): Store
      reads this, files
    {
      Store(files.disk, Mem(pendingMap, nextId, bytesUsed, logFileBytes))
    }

    /** `open` and `replayLog`. */
    constructor (codec: Codec, files: FileSystem, maxBytes: nat := 500 * 1024 * 1024)
      ensures Now() == Store(files.disk, Reopen(codec, files.disk.log))
      ensures this.codec == codec && this.files == files && this.maxBytes == maxBytes
    {
      this.codec, this.files, this.maxBytes := codec, files, maxBytes;
      pendingMap, nextId, bytesUsed := [], 1, 0;
      logFileBytes := Utf8Len(files.disk.log);
      new;
      var lines := Split(files.disk.log, '\n');
      var i := 0;
      assert lines[0..] == lines;
      while i < |lines|
        invariant 0 <= i <= |lines|
        invariant ReplayLines(codec, Now().mem, lines[i..]) == Reopen(codec, files.disk.log)
      {
        var parsed := codec.parse(lines[i]);
        assert lines[i..][1..] == lines[i + 1..];
        match parsed {
          case None =>
          case Some(Op(entry)) =>
            pendingMap := SetEntry(pendingMap, entry);
            bytesUsed := bytesUsed + LineBytes(codec, entry);
            if entry.id >= nextId { nextId := entry.id + 1; }
          case Some(Completed(id, _)) =>
            var dropped := Find(pendingMap, id);
            if dropped.Some? {
              pendingMap := DeleteEntry(pendingMap, id);
              bytesUsed := bytesUsed - LineBytes(codec, dropped.value);
              if bytesUsed < 0 { bytesUsed := 0; }
            }
        }
        i := i + 1;
      }
    }

    method EnqueueOp(op: QueuedOp, now: int) returns (id: Option<nat>)
      modifies this, files
      ensures Now() == After(codec, maxBytes, old(Now()), Enqueue(op, now))
      ensures id == if nextId == old(nextId) then None else Some(old(nextId))
    {
      var entry := QueueEntry(nextId, now, op);
      nextId := nextId + 1;
      var line := codec.ser(Op(entry));
      var lineBytes := Utf8Len(line);
      ghost var d := files.disk;
      if bytesUsed + lineBytes > maxBytes {
        nextId := nextId - 1;
        assert DoSteps(d, []) == d;
        return None;
      }
      OneStep(d, AppendLog(line + ['\n']));
      files.AppendFile(line + ['\n']);
      pendingMap := SetEntry(pendingMap, entry);
      bytesUsed := bytesUsed + lineBytes;
      logFileBytes := logFileBytes + lineBytes + 1;
      return Some(entry.id);
    }

    function Pending(): seq<QueueEntry>
      reads this
    {
      SortById(pendingMap)
    }

    method MarkCompleted(id: nat, now: int)
      modifies this, files
      ensures Now() == After(codec, maxBytes, old(Now()), Complete(id, now))
    {
      var entry := Find(pendingMap, id);
      ghost var d := files.disk;
      if entry.None? {
        assert DoSteps(d, []) == d;
        return;
      }
      FindHasId(pendingMap, id);
      var tombstone := codec.ser(Completed(id, now));
      OneStep(d, AppendLog(tombstone + ['\n']));
      files.AppendFile(tombstone + ['\n']);
      logFileBytes := logFileBytes + Utf8Len(tombstone) + 1;
      pendingMap := DeleteEntry(pendingMap, id);
      bytesUsed := bytesUsed - LineBytes(codec, entry.value);
      if bytesUsed < 0 { bytesUsed := 0; }
      if ShouldCompact(Mem(pendingMap, nextId, bytesUsed, logFileBytes)) {
        DoStepsConcat(d, [AppendLog(tombstone + ['\n'])], Rewrite(codec, Pending()));
        RewriteLog(Pending());
      }
    }

    method ClearAll()
      modifies this, files
      ensures Now() == After(codec, maxBytes, old(Now()), Clear)
    {
      pendingMap := [];
      bytesUsed := 0;
      RewriteLog([]);
    }

    method CompactNow()
      modifies this, files
      ensures Now() == After(codec, maxBytes, old(Now()), Compact)
    {
      RewriteLog(Pending());
    }

    /** Tmp file, then rename, then the new size. */
    method RewriteLog(entries: seq<QueueEntry>)
      modifies this`logFileBytes, files
      ensures files.disk == DoSteps(old(files.disk), Rewrite(codec, entries))
      ensures logFileBytes == Utf8Len(Render(codec, OpsOf(entries)))
    {
      RewriteSteps(codec, files.disk, entries);
      var body := Render(codec, OpsOf(entries));
      files.WriteTmpFile(body);
      files.RenameTmpFile();
      logFileBytes := Utf8Len(body);
    }
  }
}
