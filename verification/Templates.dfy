/**
 Template writes with one backup per run, and their undoing
 (src/docker_adopt/privileged.rs; paths from src/docker_adopt/template.rs).
 */
module Templates {
  import opened Wrappers
  import opened Text
  import opened Names
  import Numerals

  const MANAGED_MARKER := "<!-- managed-by: orca -->"

  /** The templates directory: file name to content. */
  type Files = map<string, string>

  function TemplatePath(name: string): string {
    "my-" + name + ".xml"
  }

  function BackupPath(name: string, id: string): string {
    TemplatePath(name) + ".bak-" + id
  }

  /** Saved instead of a backup when there was no template. */
  function NoneSentinel(name: string, id: string): string {
    BackupPath(name, id) + ".none"
  }

  /** `inspect_backup_path`. */
  function InspectPath(name: string, id: string): string {
    TemplatePath(name) + ".inspect-" + id + ".json"
  }

  // ---- Run ids --------------------------------------------------------------------

  predicate AreDigits(s: string) {
    forall i | 0 <= i < |s| :: IsDigitAscii(s[i])
  }

  function Number(s: string): nat
    requires AreDigits(s)
  {
    Numerals.DigitsValue(s)
  }

  function DaysIn(y: nat, m: nat): nat {
    match m
    case 1 | 3 | 5 | 7 | 8 | 10 | 12 => 31
    case 4 | 6 | 9 | 11 => 30
    case 2 => if y % 4 == 0 && (y % 100 != 0 || y % 400 == 0) then 29 else 28
    case _ => 0
  }

  /** `validate_run_id`: `YYYYMMDD-HHMMSS-<8 hex>` with a real date and time. */
  predicate ValidRunId(id: string) {
    && |id| == 24 && id[8] == '-' && id[15] == '-'
    && AreDigits(id[..8]) && AreDigits(id[9..15])
    && (forall i | 16 <= i < 24 :: IsLowerHex(id[i]))
    && RealTimestamp(id)
  }

  predicate RealTimestamp(id: string)
    requires |id| == 24 && AreDigits(id[..8]) && AreDigits(id[9..15])
  {
    var date, time := id[..8], id[9..15];
    && 1 <= Number(date[6..]) <= DaysIn(Number(date[..4]), Number(date[4..6]))
    && Number(time[..2]) < 24 && Number(time[2..4]) < 60 && Number(time[4..]) < 60
  }

  // ---- The operations ----------------------------------------------------------------

  datatype Error = InvalidName | InvalidRunId | BadTemplate | Exists | NoBackup | NotOurs | Io

  /** `check_template`: whether a body is a template for the name. */
  type Check = (string, string) -> bool

  /** A failing save leaves nothing or the first bytes; a replacement happens or not. */
  datatype WriteIo = WriteIo(saved: bool, part: Option<nat>, replaced: bool)

  datatype RestoreIo = RestoreIo(written: bool, sentinelRemoved: bool)

  /** What `write_template_in` saves, and under which name. */
  function Saved(files: Files, name: string, id: string): (string, string) {
    if TemplatePath(name) in files then (BackupPath(name, id), files[TemplatePath(name)])
    else (NoneSentinel(name, id), "")
  }

  function Written(check: Check, files: Files, name: string, xml: string, id: string, io: WriteIo)
    : (Files, Result<(), Error>)
  {
    var (path, content) := Saved(files, name, id);
    if !ValidName(name) then (files, Err(InvalidName))
    else if !ValidRunId(id) then (files, Err(InvalidRunId))
    else if !check(name, xml) then (files, Err(BadTemplate))
    else if path in files then (files, Err(Exists))
    else if !io.saved && io.part.None? then (files, Err(Io))
    else if !io.saved then (files[path := FirstBytes(content, io.part.value)], Err(Io))
    else if !io.replaced then (files[path := content], Err(Io))
    else (files[path := content][TemplatePath(name) := xml], Ok(()))
  }

  predicate Managed(content: string) {
    content == "" || Contains(content, MANAGED_MARKER)
  }

  function Restored(files: Files, name: string, id: string, io: RestoreIo): (Files, Result<(), Error>) {
    var (path, bak, sentinel) := (TemplatePath(name), BackupPath(name, id), NoneSentinel(name, id));
    if !ValidName(name) then (files, Err(InvalidName))
    else if !ValidRunId(id) then (files, Err(InvalidRunId))
    else if bak in files then
      if io.written then (files[path := files[bak]], Ok(())) else (files, Err(Io))
    else if sentinel !in files then (files, Err(NoBackup))
    else if path in files && !Managed(files[path]) then (files, Err(NotOurs))
    else if !io.written then (files, Err(Io))
    else if !io.sentinelRemoved then (files - {path}, Err(Io))
    else (files - {path, sentinel}, Ok(()))
  }

  class TemplateDir {
    const check: Check
    var files: Files

    constructor (check: Check, files: Files)
      ensures this.check == check && this.files == files
    {
      this.check, this.files := check, files;
    }

    method WriteTemplateIn(name: string, xml: string, id: string, io: WriteIo) returns (r: Result<(), Error>)
      modifies this
      ensures (files, r) == Written(check, old(files), name, xml, id, io)
    {
      if !ValidName(name) { return Err(InvalidName); }
      if !ValidRunId(id) { return Err(InvalidRunId); }
      if !check(name, xml) { return Err(BadTemplate); }
      var path := TemplatePath(name);
      var saved, content := NoneSentinel(name, id), "";
      if path in files {
        saved, content := BackupPath(name, id), files[path];
      }
      if saved in files { return Err(Exists); }
      if !io.saved {
        if io.part.Some? { files := files[saved := FirstBytes(content, io.part.value)]; }
        return Err(Io);
      }
      files := files[saved := content];
      if !io.replaced { return Err(Io); }
      files := files[path := xml];
      return Ok(());
    }

    method RestoreTemplateIn(name: string, id: string, io: RestoreIo) returns (r: Result<(), Error>)
      modifies this
      ensures (files, r) == Restored(old(files), name, id, io)
    {
      if !ValidName(name) { return Err(InvalidName); }
      if !ValidRunId(id) { return Err(InvalidRunId); }
      var path, bak, sentinel := TemplatePath(name), BackupPath(name, id), NoneSentinel(name, id);
      if bak in files {
        if !io.written { return Err(Io); }
        files := files[path := files[bak]];
        return Ok(());
      }
      if sentinel !in files { return Err(NoBackup); }
      if path in files && !Managed(files[path]) { return Err(NotOurs); }
      if !io.written { return Err(Io); }
      files := files - {path};
      if !io.sentinelRemoved { return Err(Io); }
      files := files - {sentinel};
      assert files == old(files) - {path, sentinel};
      return Ok(());
    }
  }

  // ---- Which files belong to which container and run ------------------------------------

  /** A template, a backup and a sentinel never share a file, whatever the names and ids. */
  lemma PathsApart(a: string, i: string, b: string, j: string)
    requires ValidRunId(i) && ValidRunId(j)
    ensures TemplatePath(a) == TemplatePath(b) <==> a == b
    ensures BackupPath(a, i) == BackupPath(b, j) <==> a == b && i == j
    ensures NoneSentinel(a, i) == NoneSentinel(b, j) <==> a == b && i == j
    ensures TemplatePath(a) != BackupPath(b, j) && TemplatePath(a) != NoneSentinel(b, j)
    ensures BackupPath(a, i) != NoneSentinel(b, j)
  {
    EndsApart(a, i, b, j);
    BackupsApart(a, i, b, j);
    TemplatesApart(a, b);
    var (p, q) := (NoneSentinel(a, i), NoneSentinel(b, j));
    assert p[..|p| - 5] == BackupPath(a, i) && q[..|q| - 5] == BackupPath(b, j);
  }

  /** A saved inspect is none of them. */
  lemma InspectApart(a: string, i: string, b: string, j: string)
    requires ValidRunId(j)
    ensures InspectPath(a, i) != TemplatePath(b) && InspectPath(a, i) != BackupPath(b, j)
    ensures InspectPath(a, i) != NoneSentinel(b, j)
  {
    var s := InspectPath(a, i);
    assert s[|s| - 1] == 'n' && s[|s| - 2] == 'o';
    EndsApart(b, j, b, j);
  }

  lemma TemplatesApart(a: string, b: string)
    ensures TemplatePath(a) == TemplatePath(b) <==> a == b
  {
    var (s, t) := (TemplatePath(a), TemplatePath(b));
    assert s[3..|s| - 4] == a && t[3..|t| - 4] == b;
  }

  lemma BackupsApart(a: string, i: string, b: string, j: string)
    requires |i| == |j| == 24
    ensures BackupPath(a, i) == BackupPath(b, j) <==> a == b && i == j
  {
    TemplatesApart(a, b);
    var (s, t) := (BackupPath(a, i), BackupPath(b, j));
    assert s[|s| - 24..] == i && t[|t| - 24..] == j;
    assert s[..|s| - 29] == TemplatePath(a) && t[..|t| - 29] == TemplatePath(b);
  }

  lemma EndsApart(a: string, i: string, b: string, j: string)
    requires ValidRunId(i)
    ensures TemplatePath(a)[|TemplatePath(a)| - 1] == 'l'
    ensures BackupPath(a, i)[|BackupPath(a, i)| - 1] == i[23] && BackupPath(a, i)[|BackupPath(a, i)| - 2] == i[22]
    ensures IsLowerHex(i[22]) && IsLowerHex(i[23])
    ensures NoneSentinel(b, j)[|NoneSentinel(b, j)| - 1] == 'e' && NoneSentinel(b, j)[|NoneSentinel(b, j)| - 2] == 'n'
  {}

  // ---- Single operations ------------------------------------------------------------------

  datatype Op =
    | Write(name: string, id: string, xml: string, writeIo: WriteIo)
    | Restore(name: string, id: string, restoreIo: RestoreIo)

  function Step(check: Check, files: Files, op: Op): Files {
    match op
    case Write(name, id, xml, io) => Written(check, files, name, xml, id, io).0
    case Restore(name, id, io) => Restored(files, name, id, io).0
  }

  predicate SameAt(a: Files, b: Files, path: string) {
    (path in a <==> path in b) && (path in a ==> a[path] == b[path])
  }

  /** What run `id` keeps for `name` is the same. */
  predicate SameFor(a: Files, b: Files, name: string, id: string) {
    SameAt(a, b, BackupPath(name, id)) && SameAt(a, b, NoneSentinel(name, id))
  }

  lemma StepTouches(check: Check, files: Files, op: Op, path: string)
    ensures SameAt(files, Step(check, files, op), path)
         || (ValidRunId(op.id)
              && path in {TemplatePath(op.name), BackupPath(op.name, op.id), NoneSentinel(op.name, op.id)})
  {
    hide ValidRunId, TemplatePath, BackupPath, NoneSentinel;
  }

  /** An operation touches only its own container's template and its own run's backup. */
  lemma StepFrame(check: Check, files: Files, op: Op, name: string, id: string)
    requires ValidRunId(id) && !(op.name == name && op.id == id)
    ensures SameFor(files, Step(check, files, op), name, id)
    ensures op.name != name ==> SameAt(files, Step(check, files, op), TemplatePath(name))
  {
    StepTouches(check, files, op, BackupPath(name, id));
    StepTouches(check, files, op, NoneSentinel(name, id));
    StepTouches(check, files, op, TemplatePath(name));
    if ValidRunId(op.id) {
      hide ValidRunId, Step, BackupPath, NoneSentinel, TemplatePath;
      PathsApart(op.name, op.id, name, id);
      PathsApart(name, id, op.name, op.id);
    }
  }

  /** A failed write leaves the template as it was; a failed restore leaves a backup to restore from. */
  lemma FailedWriteKeepsTemplate(check: Check, files: Files, name: string, xml: string, id: string, io: WriteIo)
    requires Written(check, files, name, xml, id, io).1.Err?
    ensures SameAt(files, Written(check, files, name, xml, id, io).0, TemplatePath(name))
  {
    if ValidRunId(id) { PathsApart(name, id, name, id); }
  }

  /** Nothing of run `id` is left over for `name`. */
  predicate Unused(files: Files, name: string, id: string) {
    BackupPath(name, id) !in files && NoneSentinel(name, id) !in files
  }

  const ALL_WRITTEN := WriteIo(true, None, true)
  const ALL_RESTORED := RestoreIo(true, true)

  /** A write is undone by its restore, if template and backup are as the write left them. */
  lemma WriteThenRestore(check: Check, files: Files, name: string, xml: string, id: string, later: Files)
    returns (after: Files)
    requires ValidName(name) && ValidRunId(id) && check(name, xml) && Unused(files, name, id)
    requires xml == "" || Marked(xml)
    requires var written := Written(check, files, name, xml, id, ALL_WRITTEN).0;
             SameFor(written, later, name, id) && SameAt(written, later, TemplatePath(name))
    ensures Written(check, files, name, xml, id, ALL_WRITTEN).1.Ok?
    ensures Restored(later, name, id, ALL_RESTORED) == (after, Ok(()))
    ensures SameAt(files, after, TemplatePath(name))
  {
    PathsApart(name, id, name, id);
    ManagedIffMarked(xml);
    after := Restored(later, name, id, ALL_RESTORED).0;
  }

  /** The file carries the marker orca writes into its templates. */
  ghost predicate Marked(content: string) {
    exists p: nat :: StandsAt(content, p, "<!-- managed-by: orca -->")
  }

  lemma ManagedIffMarked(content: string)
    ensures Managed(content) <==> content == "" || Marked(content)
  {
    ContainsAt(content, "<!-- managed-by: orca -->");
    hide Contains;
  }

  /**
   Where a run found no template and one stands now, its restore removes it exactly if the
   marker is in it; any other template stays as it is, and the restore fails.
   */
  lemma RestoreIffMarked(files: Files, name: string, id: string, io: RestoreIo)
    requires ValidName(name) && ValidRunId(id)
    requires "my-" + name + ".xml" in files && files["my-" + name + ".xml"] != ""
    requires "my-" + name + ".xml.bak-" + id !in files && "my-" + name + ".xml.bak-" + id + ".none" in files
    ensures var (path, sentinel) := ("my-" + name + ".xml", "my-" + name + ".xml.bak-" + id + ".none");
            var (after, r) := Restored(files, name, id, io);
            && (!Marked(files[path]) ==> after == files)
            && (path in after <==> !(Marked(files[path]) && io.written))
            && (r.Ok? <==> Marked(files[path]) && io.written && io.sentinelRemoved)
            && (r.Ok? ==> after == files - {path, sentinel})
  {
    PathsSpelled(name, id);
    PathsApart(name, id, name, id);
    ManagedIffMarked(files["my-" + name + ".xml"]);
    hide Managed, Marked, TemplatePath, BackupPath, NoneSentinel, ValidName, ValidRunId;
  }

  /**
   A write saves what it replaces before it replaces it, never over a file that is there: a template
   under the run's backup, its absence as an empty sentinel. Stopped half way, the template is as
   it was.
   */
  lemma WriteSpelled(check: Check, files: Files, name: string, xml: string, id: string, io: WriteIo)
    requires ValidName(name) && ValidRunId(id)
    ensures var path := "my-" + name + ".xml";
            var kept := "my-" + name + ".xml.bak-" + id;
            var kept := if path in files then kept else kept + ".none";
            var content := if path in files then files[path] else "";
            var (after, r) := Written(check, files, name, xml, id, io);
            && (r.Ok? <==> check(name, xml) && kept !in files && io.saved && io.replaced)
            && (r.Ok? ==> after == files[kept := content][path := xml])
            && (!check(name, xml) || kept in files ==> after == files)
            && (check(name, xml) && kept !in files && io.saved && !io.replaced ==> after == files[kept := content])
            && (check(name, xml) && kept !in files && !io.saved ==>
                  after == if io.part.Some? then files[kept := FirstBytes(content, io.part.value)] else files)
  {
    PathsSpelled(name, id);
    hide TemplatePath, BackupPath, NoneSentinel, ValidName, ValidRunId, FirstBytes;
  }

  lemma PathsSpelled(name: string, id: string)
    ensures TemplatePath(name) == "my-" + name + ".xml"
    ensures BackupPath(name, id) == "my-" + name + ".xml.bak-" + id
    ensures NoneSentinel(name, id) == "my-" + name + ".xml.bak-" + id + ".none"
    ensures InspectPath(name, id) == "my-" + name + ".xml.inspect-" + id + ".json"
  {
    assert ".xml" + ".bak-" == ".xml.bak-" && ".xml" + ".inspect-" == ".xml.inspect-";
    Assoc("my-" + name, ".xml", ".bak-");
    Assoc("my-" + name, ".xml", ".inspect-");
  }

  // ---- Run ids, spelled out --------------------------------------------------------------

  const MONTH_LENGTHS := [31, 28, 31, 30, 31, 30, 31, 31, 30, 31, 30, 31]

  /** Every fourth year, but of the full centuries only every fourth. */
  predicate IsLeap(year: nat) {
    if year % 100 == 0 then year / 100 % 4 == 0 else year % 4 == 0
  }

  lemma LeapSpelled(year: nat)
    ensures IsLeap(year) <==> year % 4 == 0 && (year % 100 != 0 || year % 400 == 0)
  {
    if year % 100 == 0 {
      CenturyByFour(year / 100);
    } else if year % 400 == 0 {
      FourCenturies(year / 400);
    }
  }

  lemma CenturyByFour(c: nat)
    ensures 100 * c % 4 == 0 && (100 * c % 400 == 0 <==> c % 4 == 0)
  {
    var (k, m) := (c / 4, c % 4);
    assert 100 * c == 400 * k + 100 * m;
  }

  lemma FourCenturies(k: nat)
    ensures 400 * k % 100 == 0
  {}

  lemma DaysSpelled(year: nat, month: nat)
    ensures DaysIn(year, month)
         == if 1 <= month <= 12 then MONTH_LENGTHS[month - 1] + (if month == 2 && IsLeap(year) then 1 else 0) else 0
  {
    LeapSpelled(year);
    hide IsLeap;
  }

  /** The number of a two-digit text. */
  function TwoDigitNumber(a: char, b: char): int {
    10 * (a as int - '0' as int) + (b as int - '0' as int)
  }

  lemma TwoDigitsRead(s: string)
    requires |s| == 2 && AreDigits(s)
    ensures Number(s) == TwoDigitNumber(s[0], s[1])
  {
    assert s[..1] == [s[0]] && [s[0]][..0] == "";
    assert Numerals.DigitsValue([s[0]]) == s[0] as int - '0' as int;
  }

  lemma FourDigitsRead(s: string)
    requires |s| == 4 && AreDigits(s)
    ensures Number(s) == 100 * TwoDigitNumber(s[0], s[1]) + TwoDigitNumber(s[2], s[3])
  {
    assert s[..3][..2] == s[..2];
    assert AreDigits(s[..3]) && AreDigits(s[..2]);
    TwoDigitsRead(s[..2]);
    assert Numerals.DigitsValue(s[..3]) == 10 * Numerals.DigitsValue(s[..3][..2]) + (s[2] as int - '0' as int);
    assert Numerals.DigitsValue(s) == 10 * Numerals.DigitsValue(s[..3]) + (s[3] as int - '0' as int);
  }

  ghost predicate HasRunIdShape(id: string) {
    && |id| == 24 && id[8] == '-' && id[15] == '-'
    && (forall i | 0 <= i < 15 && i != 8 :: id[i] in "0123456789")
    && forall i | 16 <= i < 24 :: id[i] in "0123456789abcdef"
  }

  /** The day exists, and the time of it to the second. */
  predicate IsMoment(id: string)
    requires |id| == 24
  {
    var (year, month, day) := (100 * TwoDigitNumber(id[0], id[1]) + TwoDigitNumber(id[2], id[3]),
                               TwoDigitNumber(id[4], id[5]), TwoDigitNumber(id[6], id[7]));
    && year >= 0 && 1 <= month <= 12
    && 1 <= day <= MONTH_LENGTHS[month - 1] + (if month == 2 && IsLeap(year) then 1 else 0)
    && TwoDigitNumber(id[9], id[10]) <= 23 && TwoDigitNumber(id[11], id[12]) <= 59
    && TwoDigitNumber(id[13], id[14]) <= 59
  }

  lemma ShapeSpelled(id: string)
    ensures HasRunIdShape(id) <==>
              && |id| == 24 && id[8] == '-' && id[15] == '-' && AreDigits(id[..8]) && AreDigits(id[9..15])
              && forall i | 16 <= i < 24 :: IsLowerHex(id[i])
  {
    forall c: char ensures IsDigitAscii(c) <==> c in DIGITS { DigitListed(c); }
    forall c: char ensures IsLowerHex(c) <==> c in "0123456789abcdef" { HexSpelled(c); }
    hide IsDigitAscii, IsLowerHex;
    if |id| == 24 {
      assert AreDigits(id[..8]) <==> forall i | 0 <= i < 8 :: IsDigitAscii(id[i]);
      var time := id[9..15];
      assert forall k | 0 <= k < 6 :: time[k] == id[9 + k];
      assert AreDigits(time) <==> forall i | 9 <= i < 15 :: IsDigitAscii(id[i]) by {
        if forall i | 9 <= i < 15 :: IsDigitAscii(id[i]) { assert AreDigits(time); }
        if AreDigits(time) {
          forall i | 9 <= i < 15 ensures IsDigitAscii(id[i]) { assert id[i] == time[i - 9]; }
        }
      }
    }
  }

  /** A run id: the shape, of a moment that exists. */
  lemma RunIdSpelled(id: string)
    ensures ValidRunId(id) <==> HasRunIdShape(id) && IsMoment(id)
  {
    ShapeSpelled(id);
    if HasRunIdShape(id) { RunIdNumbers(id); }
    hide RealTimestamp, IsMoment, HasRunIdShape, IsLowerHex;
  }

  lemma RunIdNumbers(id: string)
    requires |id| == 24 && AreDigits(id[..8]) && AreDigits(id[9..15])
    ensures RealTimestamp(id) <==> IsMoment(id)
  {
    var (date, time) := (id[..8], id[9..15]);
    hide Numerals.DigitsValue, DaysIn, IsLeap, Number;
    FourDigitsRead(date[..4]);
    TwoDigitsRead(date[4..6]);
    TwoDigitsRead(date[6..]);
    TwoDigitsRead(time[..2]);
    TwoDigitsRead(time[2..4]);
    TwoDigitsRead(time[4..]);
    DaysSpelled(Number(date[..4]), Number(date[4..6]));
  }

  // ---- Nested runs ----------------------------------------------------------------------------

  /**
   Runs on one container, properly nested: each writes its template, whatever comes inside
   happens, and it restores. Other containers' operations come anywhere.
   */
  datatype Runs =
    | Done
    | Session(id: string, xml: string, inner: Runs, rest: Runs)
    | Foreign(op: Op, rest: Runs)

  function Ids(runs: Runs): set<string> {
    match runs
    case Done => {}
    case Session(id, _, inner, rest) => {id} + Ids(inner) + Ids(rest)
    case Foreign(_, rest) => Ids(rest)
  }

  /** Valid templates with the marker, distinct valid run ids, and the rest about other containers. */
  ghost predicate Proper(check: Check, name: string, runs: Runs) {
    match runs
    case Done => true
    case Session(id, xml, inner, rest) =>
      && ValidRunId(id) && check(name, xml) && (xml == "" || Marked(xml))
      && id !in Ids(inner) && id !in Ids(rest) && Ids(inner) !! Ids(rest)
      && Proper(check, name, inner) && Proper(check, name, rest)
    case Foreign(op, rest) => op.name != name && Proper(check, name, rest)
  }

  /** The files after the runs, and whether every write and restore of `name` succeeded. */
  function Perform(check: Check, files: Files, name: string, runs: Runs): (Files, bool)
    decreases runs
  {
    match runs
    case Done => (files, true)
    case Session(id, xml, inner, rest) =>
      var (written, w) := Written(check, files, name, xml, id, ALL_WRITTEN);
      var (later, ok) := Perform(check, written, name, inner);
      var (restored, r) := Restored(later, name, id, ALL_RESTORED);
      var (after, ok') := Perform(check, restored, name, rest);
      (after, w.Ok? && ok && r.Ok? && ok')
    case Foreign(op, rest) => Perform(check, Step(check, files, op), name, rest)
  }

  predicate AllUnused(files: Files, name: string, ids: set<string>) {
    forall id | id in ids :: Unused(files, name, id)
  }

  /** What the runs do not name stays for every other run. */
  lemma {:induction false} PerformFrame(check: Check, files: Files, name: string, runs: Runs, id: string)
    requires Proper(check, name, runs) && ValidRunId(id) && id !in Ids(runs)
    ensures SameFor(files, Perform(check, files, name, runs).0, name, id)
    decreases runs
  {
    hide SameFor, Written, Restored, ValidRunId;
    match runs
    case Done => SameForSelf(files, name, id);
    case Session(i, xml, inner, rest) =>
      var written := Written(check, files, name, xml, i, ALL_WRITTEN).0;
      var later := Perform(check, written, name, inner).0;
      var restored := Restored(later, name, i, ALL_RESTORED).0;
      StepFrame(check, files, Write(name, i, xml, ALL_WRITTEN), name, id);
      PerformFrame(check, written, name, inner, id);
      StepFrame(check, later, Restore(name, i, ALL_RESTORED), name, id);
      PerformFrame(check, restored, name, rest, id);
      SameForAcross(files, written, later, name, id);
      SameForAcross(files, later, restored, name, id);
      SameForAcross(files, restored, Perform(check, files, name, runs).0, name, id);
    case Foreign(op, rest) =>
      var next := Step(check, files, op);
      StepFrame(check, files, op, name, id);
      PerformFrame(check, next, name, rest, id);
      SameForAcross(files, next, Perform(check, files, name, runs).0, name, id);
  }

  lemma SameForSelf(a: Files, name: string, id: string)
    ensures SameFor(a, a, name, id)
  {}

  lemma SameForAcross(a: Files, b: Files, c: Files, name: string, id: string)
    ensures SameFor(a, b, name, id) && SameFor(b, c, name, id) ==> SameFor(a, c, name, id)
  {}

  lemma StillUnused(a: Files, b: Files, name: string, ids: set<string>)
    requires AllUnused(a, name, ids) && forall id | id in ids :: SameFor(a, b, name, id)
    ensures AllUnused(b, name, ids)
  {
    forall id | id in ids ensures Unused(b, name, id) { assert Unused(a, name, id); }
  }

  lemma {:induction false} ProperIdsValid(check: Check, name: string, runs: Runs)
    requires Proper(check, name, runs)
    ensures forall id | id in Ids(runs) :: ValidRunId(id)
  {
    match runs
    case Done =>
    case Session(id, xml, inner, rest) =>
      ProperIdsValid(check, name, inner);
      ProperIdsValid(check, name, rest);
    case Foreign(op, rest) => ProperIdsValid(check, name, rest);
  }

  /**
   Restoring in reverse order returns the template to what each run found, its absence included:
   whatever nesting of runs with distinct ids, and whatever other containers' operations between.
   */
  lemma {:induction false} NestedRunsRestore(check: Check, files: Files, name: string, runs: Runs)
    requires ValidName(name) && Proper(check, name, runs) && AllUnused(files, name, Ids(runs))
    ensures Perform(check, files, name, runs).1
    ensures SameAt(files, Perform(check, files, name, runs).0, TemplatePath(name))
    decreases runs
  {
    hide Written, Restored, ValidRunId, SameFor;
    ProperIdsValid(check, name, runs);
    match runs
    case Done =>
    case Session(id, xml, inner, rest) =>
      var written := Written(check, files, name, xml, id, ALL_WRITTEN).0;
      OthersUnused(check, files, Write(name, id, xml, ALL_WRITTEN), name, Ids(inner) + Ids(rest));
      assert AllUnused(written, name, Ids(inner));
      NestedRunsRestore(check, written, name, inner);
      var later := Perform(check, written, name, inner).0;
      PerformFrame(check, written, name, inner, id);
      assert Unused(files, name, id);
      var restored := WriteThenRestore(check, files, name, xml, id, later);
      forall i | i in Ids(rest) ensures SameFor(written, later, name, i) {
        PerformFrame(check, written, name, inner, i);
      }
      StillUnused(written, later, name, Ids(rest));
      OthersUnused(check, later, Restore(name, id, ALL_RESTORED), name, Ids(rest));
      NestedRunsRestore(check, restored, name, rest);
    case Foreign(op, rest) =>
      var next := Step(check, files, op);
      OthersUnused(check, files, op, name, Ids(rest));
      ForeignKeepsTemplate(check, files, op, name);
      NestedRunsRestore(check, next, name, rest);
  }

  lemma OthersUnused(check: Check, files: Files, op: Op, name: string, ids: set<string>)
    requires AllUnused(files, name, ids) && (forall id | id in ids :: ValidRunId(id))
    requires op.name == name ==> op.id !in ids
    ensures AllUnused(Step(check, files, op), name, ids)
  {
    hide Step, ValidRunId;
    forall id | id in ids ensures SameFor(files, Step(check, files, op), name, id) {
      StepFrame(check, files, op, name, id);
    }
    StillUnused(files, Step(check, files, op), name, ids);
  }

  lemma ForeignKeepsTemplate(check: Check, files: Files, op: Op, name: string)
    requires op.name != name
    ensures SameAt(files, Step(check, files, op), TemplatePath(name))
  {
    hide ValidRunId, Step, BackupPath, NoneSentinel, TemplatePath;
    StepTouches(check, files, op, TemplatePath(name));
    if ValidRunId(op.id) {
      PathsApart(name, op.id, op.name, op.id);
    }
  }
}
