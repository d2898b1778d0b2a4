/**
 * Files kept in the store and the row fields that name them: replacing a file, dropping it, resizing a
 * problem's test cases, and the removal service that deletes what was queued.
 */
module Files {
  import opened Decimal

  type Id = nat
  type Name = string

  /** A row field that names a file. Test cases are named by their position in the problem. */
  datatype Slot =
    | Description
    | Statement(pid: Id)
    | Checker(pid: Id)
    | Code(sid: Id)
    | Message(sid: Id)
    | CaseInput(pid: Id, index: nat)
    | CaseOutput(pid: Id, index: nat)

  datatype Category =
    | SubmissionCode
    | TestcaseInout
    | ContestDescription
    | ProblemStatement
    | ProblemChecker
    | SubmissionMsg

  function CategoryOf(slot: Slot): Category {
    match slot
    case Description => ContestDescription
    case Statement(_) => ProblemStatement
    case Checker(_) => ProblemChecker
    case Code(_) => SubmissionCode
    case Message(_) => SubmissionMsg
    case CaseInput(_, _) => TestcaseInout
    case CaseOutput(_, _) => TestcaseInout
  }

  function CategoryName(c: Category): string {
    match c
    case SubmissionCode => "submission_code"
    case TestcaseInout => "testcase_inout"
    case ContestDescription => "contest_description"
    case ProblemStatement => "problem_statement"
    case ProblemChecker => "problem_checker"
    case SubmissionMsg => "submission_msg"
  }

  /** `process` is the five-letter identification each server process draws at start. */
  function CreateFilePath(c: Category, process: string, version: nat): Name {
    CategoryName(c) + "_" + process + "_" + FormatInt(version) + ".txt"
  }

  /** Different versions have different paths, whichever processes made them. */
  lemma PathInjective(c: Category, process: string, version: nat, process': string, version': nat)
    requires |process| == |process'| == 5
    requires CreateFilePath(c, process, version) == CreateFilePath(c, process', version')
    ensures version == version'
  {
    var path, start := CreateFilePath(c, process, version), |CategoryName(c)| + 7;
    assert path[start..|path| - 4] == Digits(version);
    assert path[start..|path| - 4] == Digits(version');
    DigitsInjective(version, version');
  }

  /** Each kind of field has a category of its own, except that inputs and outputs of cases share one. */
  lemma CategoriesApart(a: Slot, b: Slot)
    ensures CategoryName(CategoryOf(a)) == CategoryName(CategoryOf(b)) <==>
      || (a.Description? && b.Description?) || (a.Statement? && b.Statement?) || (a.Checker? && b.Checker?)
      || (a.Code? && b.Code?) || (a.Message? && b.Message?)
      || ((a.CaseInput? || a.CaseOutput?) && (b.CaseInput? || b.CaseOutput?))
  {
    var x, y := CategoryName(CategoryOf(a)), CategoryName(CategoryOf(b));
    assert x == y ==> |x| == |y| && x[0] == y[0] && x[8] == y[8] && x[11] == y[11];
  }

  /** The names of the store's categories, and a path. */
  lemma PathText(pid: Id, sid: Id, index: nat)
    ensures CategoryName(CategoryOf(Description)) == "contest_description"
    ensures CategoryName(CategoryOf(Statement(pid))) == "problem_statement"
    ensures CategoryName(CategoryOf(Checker(pid))) == "problem_checker"
    ensures CategoryName(CategoryOf(Code(sid))) == "submission_code"
    ensures CategoryName(CategoryOf(Message(sid))) == "submission_msg"
    ensures CategoryName(CategoryOf(CaseInput(pid, index))) == "testcase_inout"
    ensures CreateFilePath(CategoryOf(CaseOutput(pid, index)), "hJk3x", 12) == "testcase_inout_hJk3x_12.txt"
  {
    assert Digits(12) == Digits(1) + [Digit(2)];
  }

  datatype File = File(category: Category, name: Name)

  /**
   * `refs` holds every field that exists; an empty name means no file. `issued` counts the ids drawn per
   * category. `leaked` is history: the files of failed uploads, and the old files such a failure forgot.
   */
  datatype Store = Store(refs: map<Slot, Name>, issued: map<Category, nat>, disk: set<File>, queued: set<File>,
    leaked: set<File>)

  const EMPTY_STORE := Store(map[], map[], {}, {}, {})

  datatype Step =
    | AddSlot(slot: Slot)
    | Replace(slot: Slot, process: string)
    | FailUpload(slot: Slot, process: string, forget: bool)
    | Drop(slot: Slot)
    | Resize(pid: Id, length: nat)
    | Remove(file: File)

  function Issued(s: Store, c: Category): nat {
    if c in s.issued then s.issued[c] else 0
  }

  function Old(s: Store, slot: Slot): set<File>
    requires slot in s.refs
  {
    if s.refs[slot] == "" then {} else {File(CategoryOf(slot), s.refs[slot])}
  }

  predicate CaseSlot(slot: Slot, pid: Id) {
    (slot.CaseInput? || slot.CaseOutput?) && slot.pid == pid
  }

  /** Fields of cases at and beyond the new length go away. */
  predicate Dropped(slot: Slot, pid: Id, length: nat) {
    CaseSlot(slot, pid) && slot.index >= length
  }

  predicate Enabled(s: Store, step: Step) {
    match step
    case AddSlot(slot) => slot !in s.refs
    case Replace(slot, process) => slot in s.refs && |process| == 5
    case FailUpload(slot, process, forget) => slot in s.refs && |process| == 5
    case Drop(slot) => slot in s.refs
    case Resize(_, _) => true
    case Remove(file) => file in s.queued
  }

  function Next(s: Store, step: Step): Store
    requires Enabled(s, step)
  {
    match step
    case AddSlot(slot) => s.(refs := s.refs[slot := ""])
    case Replace(slot, process) =>
      // The transaction commits with the new name, then the old file is queued.
      var c := CategoryOf(slot);
      var name := CreateFilePath(c, process, Issued(s, c) + 1);
      s.(refs := s.refs[slot := name], issued := s.issued[c := Issued(s, c) + 1],
         disk := s.disk + {File(c, name)}, queued := s.queued + Old(s, slot))
    case FailUpload(slot, process, forget) =>
      // An id and perhaps a partial file are spent; the result handler also forgets the old name.
      var c := CategoryOf(slot);
      var name := CreateFilePath(c, process, Issued(s, c) + 1);
      s.(refs := if forget then s.refs[slot := ""] else s.refs,
         issued := s.issued[c := Issued(s, c) + 1], disk := s.disk + {File(c, name)},
         leaked := s.leaked + {File(c, name)} + if forget then Old(s, slot) else {})
    case Drop(slot) => s.(refs := s.refs[slot := ""], queued := s.queued + Old(s, slot))
    case Resize(pid, length) =>
      s.(refs := map slot | slot in s.refs && !Dropped(slot, pid, length) :: s.refs[slot],
         queued := s.queued
           + (set slot | slot in s.refs && Dropped(slot, pid, length) && s.refs[slot] != "" ::
                File(CategoryOf(slot), s.refs[slot])))
    case Remove(file) => s.(disk := s.disk - {file}, queued := s.queued - {file})
  }

  // ---------------------------------------------------------------- live files

  ghost predicate Made(s: Store, f: File) {
    exists process, version :: MadeAs(s, f, process, version)
  }

  predicate MadeAs(s: Store, f: File, process: string, version: nat) {
    |process| == 5 && 1 <= version <= Issued(s, f.category) && f.name == CreateFilePath(f.category, process, version)
  }

  predicate Names(s: Store, slot: Slot, f: File) {
    slot in s.refs && s.refs[slot] != "" && f == File(CategoryOf(slot), s.refs[slot])
  }

  /** Every named file exists, is named by one field, and is not waiting to be removed. */
  ghost predicate Live(s: Store) {
    && (forall slot, f :: Names(s, slot, f) ==> Made(s, f) && f in s.disk && f !in s.queued)
    && (forall slot, slot', f :: Names(s, slot, f) && Names(s, slot', f) ==> slot == slot')
    && (forall f :: f in s.queued ==> Made(s, f))
  }

  /**
   * The files on disk are exactly those named, those waiting to be removed, and those leaked; no file is two of
   * these.
   */
  ghost predicate Conserved(s: Store) {
    && (forall f :: f in s.disk <==> (exists slot :: Names(s, slot, f)) || f in s.queued || f in s.leaked)
    && s.queued !! s.leaked
    && (forall slot, f :: Names(s, slot, f) ==> f !in s.leaked)
    && (forall f :: f in s.leaked ==> Made(s, f))
  }

  lemma NewPathUnseen(s: Store, c: Category, process: string, s': Store)
    requires |process| == 5 && s'.issued == s.issued[c := Issued(s, c) + 1]
    ensures var f := File(c, CreateFilePath(c, process, Issued(s, c) + 1));
      !Made(s, f) && Made(s', f) && f.name != ""
    ensures forall f :: Made(s, f) ==> Made(s', f)
  {
    var f := File(c, CreateFilePath(c, process, Issued(s, c) + 1));
    forall p, v | |p| == 5 && f.name == CreateFilePath(c, p, v) ensures v == Issued(s, c) + 1 {
      PathInjective(c, process, Issued(s, c) + 1, p, v);
    }
    assert MadeAs(s', f, process, Issued(s, c) + 1);
    forall g | Made(s, g) ensures Made(s', g) {
      var p, v :| MadeAs(s, g, p, v);
      assert MadeAs(s', g, p, v);
    }
  }

  lemma ReplaceLive(s: Store, step: Step)
    requires Live(s) && Enabled(s, step) && step.Replace?
    ensures Live(Next(s, step))
  {
    var s', c := Next(s, step), CategoryOf(step.slot);
    NewPathUnseen(s, c, step.process, s');
    var f := File(c, CreateFilePath(c, step.process, Issued(s, c) + 1));
    assert forall slot, g :: Names(s', slot, g) ==>
      (slot == step.slot && g == f) || (slot != step.slot && Names(s, slot, g));
    assert forall g :: g in Old(s, step.slot) ==> Names(s, step.slot, g);
  }

  lemma FailUploadLive(s: Store, step: Step)
    requires Live(s) && Enabled(s, step) && step.FailUpload?
    ensures Live(Next(s, step))
  {
    var s' := Next(s, step);
    NewPathUnseen(s, CategoryOf(step.slot), step.process, s');
    assert forall slot, g :: Names(s', slot, g) ==> Names(s, slot, g);
  }

  lemma DropLive(s: Store, step: Step)
    requires Live(s) && Enabled(s, step) && (step.AddSlot? || step.Drop? || step.Remove?)
    ensures Live(Next(s, step))
  {
    var s' := Next(s, step);
    assert forall f :: Made(s, f) ==> Made(s', f) by { MadeKept(s, s'); }
    assert forall slot, g :: Names(s', slot, g) ==> Names(s, slot, g);
    if step.Drop? {
      assert forall g :: g in Old(s, step.slot) ==> Names(s, step.slot, g);
    }
  }

  lemma MadeKept(s: Store, s': Store)
    requires s'.issued == s.issued
    ensures forall f :: Made(s, f) ==> Made(s', f)
  {
    forall f | Made(s, f) ensures Made(s', f) {
      var p, v :| MadeAs(s, f, p, v);
      assert MadeAs(s', f, p, v);
    }
  }

  lemma ResizeLive(s: Store, step: Step)
    requires Live(s) && Enabled(s, step) && step.Resize?
    ensures Live(Next(s, step))
  {
    var s' := Next(s, step);
    MadeKept(s, s');
    assert forall slot, g :: Names(s', slot, g) ==> Names(s, slot, g) && !Dropped(slot, step.pid, step.length);
    forall f | f in s'.queued && f !in s.queued
      ensures exists slot :: Names(s, slot, f) && Dropped(slot, step.pid, step.length)
    {
      var slot :| slot in s.refs && Dropped(slot, step.pid, step.length) && s.refs[slot] != "" &&
        f == File(CategoryOf(slot), s.refs[slot]);
      assert Names(s, slot, f);
    }
  }

  /** What a new length does: the fields of the cases beyond it go away, and just their files are queued. */
  lemma ResizeExact(s: Store, pid: Id, length: nat)
    ensures var s' := Next(s, Resize(pid, length));
      && (forall slot :: slot in s'.refs <==>
            slot in s.refs && forall i: nat :: i >= length ==> slot != CaseInput(pid, i) && slot != CaseOutput(pid, i))
      && (forall slot :: slot in s'.refs ==> s'.refs[slot] == s.refs[slot])
      && (forall f :: f in s'.queued <==>
            || f in s.queued
            || (f.name != "" && f.category == TestcaseInout &&
                exists i: nat :: i >= length && CaseFile(s, pid, i, f.name)))
      && s'.disk == s.disk && s'.issued == s.issued
  {
    var s' := Next(s, Resize(pid, length));
    forall slot ensures Dropped(slot, pid, length) <==>
      exists i: nat :: i >= length && (slot == CaseInput(pid, i) || slot == CaseOutput(pid, i))
    {
    }
    forall f | f in s'.queued && f !in s.queued
      ensures f.name != "" && f.category == TestcaseInout && exists i: nat :: i >= length && CaseFile(s, pid, i, f.name)
    {
      var slot :| slot in s.refs && Dropped(slot, pid, length) && s.refs[slot] != "" &&
        f == File(CategoryOf(slot), s.refs[slot]);
      assert CaseFile(s, pid, slot.index, f.name);
    }
    forall f: File, i: nat | f.name != "" && f.category == TestcaseInout && i >= length && CaseFile(s, pid, i, f.name)
      ensures f in s'.queued
    {
      var slot :| (slot == CaseInput(pid, i) || slot == CaseOutput(pid, i)) && slot in s.refs && s.refs[slot] == f.name;
      assert f == File(CategoryOf(slot), s.refs[slot]);
    }
  }

  predicate CaseFile(s: Store, pid: Id, i: nat, name: Name) {
    || (CaseInput(pid, i) in s.refs && s.refs[CaseInput(pid, i)] == name)
    || (CaseOutput(pid, i) in s.refs && s.refs[CaseOutput(pid, i)] == name)
  }

  lemma StepLive(s: Store, step: Step)
    requires Live(s) && Enabled(s, step)
    ensures Live(Next(s, step))
  {
    match step
    case Replace(_, _) => ReplaceLive(s, step);
    case FailUpload(_, _, _) => FailUploadLive(s, step);
    case Resize(_, _) => ResizeLive(s, step);
    case _ => DropLive(s, step);
  }

  // ---------------------------------------------------------------- nothing is lost

  lemma ReplaceConserved(s: Store, step: Step)
    requires Live(s) && Conserved(s) && Enabled(s, step) && step.Replace?
    ensures Conserved(Next(s, step))
  {
    var s', c := Next(s, step), CategoryOf(step.slot);
    NewPathUnseen(s, c, step.process, s');
    var new_ := File(c, CreateFilePath(c, step.process, Issued(s, c) + 1));
    assert Names(s', step.slot, new_);
    assert forall slot, g :: slot != step.slot ==> (Names(s', slot, g) <==> Names(s, slot, g));
    assert forall g :: g in Old(s, step.slot) <==> Names(s, step.slot, g);
    forall f ensures f in s'.disk <==> (exists slot :: Names(s', slot, f)) || f in s'.queued || f in s'.leaked {
      if slot :| Names(s, slot, f) {
        assert slot == step.slot || Names(s', slot, f);
      }
    }
  }

  lemma FailUploadConserved(s: Store, step: Step)
    requires Live(s) && Conserved(s) && Enabled(s, step) && step.FailUpload?
    ensures Conserved(Next(s, step))
  {
    var s', c := Next(s, step), CategoryOf(step.slot);
    NewPathUnseen(s, c, step.process, s');
    assert forall slot, g :: slot != step.slot || !step.forget ==> (Names(s', slot, g) <==> Names(s, slot, g));
    assert forall g :: g in Old(s, step.slot) <==> Names(s, step.slot, g);
    forall f ensures f in s'.disk <==> (exists slot :: Names(s', slot, f)) || f in s'.queued || f in s'.leaked {
      if slot :| Names(s, slot, f) {
        assert (slot == step.slot && step.forget) || Names(s', slot, f);
      }
    }
  }

  lemma DropConserved(s: Store, step: Step)
    requires Live(s) && Conserved(s) && Enabled(s, step) && (step.AddSlot? || step.Drop? || step.Remove?)
    ensures Conserved(Next(s, step))
  {
    var s' := Next(s, step);
    MadeKept(s, s');
    assert forall slot, g :: !(step.Drop? && slot == step.slot) ==> (Names(s', slot, g) <==> Names(s, slot, g));
    assert step.Drop? ==> forall g :: g in Old(s, step.slot) <==> Names(s, step.slot, g);
    forall f ensures f in s'.disk <==> (exists slot :: Names(s', slot, f)) || f in s'.queued || f in s'.leaked {
      if slot :| Names(s, slot, f) {
        assert (step.Drop? && slot == step.slot) || Names(s', slot, f);
      }
    }
  }

  lemma ResizeConserved(s: Store, step: Step)
    requires Live(s) && Conserved(s) && Enabled(s, step) && step.Resize?
    ensures Conserved(Next(s, step))
  {
    var s' := Next(s, step);
    MadeKept(s, s');
    assert forall slot, g :: Names(s', slot, g) <==> Names(s, slot, g) && !Dropped(slot, step.pid, step.length);
    forall f
      ensures f in s'.queued
              <==> f in s.queued || exists slot :: Names(s, slot, f) && Dropped(slot, step.pid, step.length)
    {
      if slot :| Names(s, slot, f) && Dropped(slot, step.pid, step.length) {
        assert f == File(CategoryOf(slot), s.refs[slot]);
      }
    }
    forall f ensures f in s'.disk <==> (exists slot :: Names(s', slot, f)) || f in s'.queued || f in s'.leaked {
      if slot :| Names(s, slot, f) {
        assert Dropped(slot, step.pid, step.length) || Names(s', slot, f);
      }
    }
  }

  lemma StepConserved(s: Store, step: Step)
    requires Live(s) && Conserved(s) && Enabled(s, step)
    ensures Conserved(Next(s, step))
  {
    match step
    case Replace(_, _) => ReplaceConserved(s, step);
    case FailUpload(_, _, _) => FailUploadConserved(s, step);
    case Resize(_, _) => ResizeConserved(s, step);
    case _ => DropConserved(s, step);
  }

  ghost predicate Runs(s: Store, steps: seq<Step>)
    decreases |steps|
  {
    steps != [] ==> Enabled(s, steps[0]) && Runs(Next(s, steps[0]), steps[1..])
  }

  ghost function After(s: Store, steps: seq<Step>): Store
    requires Runs(s, steps)
    decreases |steps|
  {
    if steps == [] then s else After(Next(s, steps[0]), steps[1..])
  }

  /** Serial runs of committed updates keep what every step keeps. */
  lemma {:induction false} RunLive(s: Store, steps: seq<Step>)
    requires Live(s) && Conserved(s) && Runs(s, steps)
    ensures Live(After(s, steps)) && Conserved(After(s, steps))
    decreases |steps|
  {
    if steps != [] {
      StepLive(s, steps[0]);
      StepConserved(s, steps[0]);
      RunLive(Next(s, steps[0]), steps[1..]);
    }
  }

  /**
   * In every serial run of committed updates from the empty store: a named file is named by one field, exists and
   * is not queued for removal, and the disk holds the named, queued and leaked files and nothing else, each file
   * in one of these roles.
   */
  lemma LiveFilesSafe(steps: seq<Step>)
    requires Runs(EMPTY_STORE, steps)
    ensures var s := After(EMPTY_STORE, steps);
      && (forall slot, f :: Names(s, slot, f) ==> f in s.disk && f !in s.queued && f !in s.leaked)
      && (forall slot, slot', f :: Names(s, slot, f) && Names(s, slot', f) ==> slot == slot')
      && (forall f :: f in s.disk <==> (exists slot :: Names(s, slot, f)) || f in s.queued || f in s.leaked)
      && s.queued !! s.leaked
  {
    RunLive(EMPTY_STORE, steps);
  }

  // ---------------------------------------------------------------- resizing the test cases

  datatype CaseRow = CaseRow(id: Id, name: string, input: Name, output: Name)

  function FilesOf(cases: seq<CaseRow>): seq<Name> {
    if cases == [] then [] else FilesOf(cases[..|cases| - 1]) + [cases[|cases| - 1].input, cases[|cases| - 1].output]
  }

  lemma {:induction false} FilesOfAppend(a: seq<CaseRow>, b: seq<CaseRow>)
    ensures FilesOf(a + b) == FilesOf(a) + FilesOf(b)
    decreases |b|
  {
    if b == [] {
      assert a + b == a;
    } else {
      FilesOfAppend(a, b[..|b| - 1]);
      assert (a + b)[..|a + b| - 1] == a + b[..|b| - 1];
    }
  }

  lemma {:induction false} FilesOfSame(a: seq<CaseRow>, b: seq<CaseRow>)
    requires |a| == |b| && forall i :: 0 <= i < |a| ==> a[i].input == b[i].input && a[i].output == b[i].output
    ensures FilesOf(a) == FilesOf(b)
  {
    if a != [] {
      FilesOfSame(a[..|a| - 1], b[..|b| - 1]);
    }
  }

  lemma FilesOfNext(cases: seq<CaseRow>, lo: nat, i: nat)
    requires lo <= i < |cases|
    ensures FilesOf(cases[lo..i + 1]) == FilesOf(cases[lo..i]) + [cases[i].input, cases[i].output]
  {
    assert cases[lo..i + 1][..i - lo] == cases[lo..i];
  }

  /** Two files a case, the input first, in the order of the cases. */
  lemma {:induction false} FilesAt(cases: seq<CaseRow>, i: nat)
    requires i < |cases|
    ensures |FilesOf(cases)| == 2 * |cases|
    ensures FilesOf(cases)[2 * i] == cases[i].input && FilesOf(cases)[2 * i + 1] == cases[i].output
  {
    FilesCount(cases[..|cases| - 1]);
    if i < |cases| - 1 {
      FilesAt(cases[..|cases| - 1], i);
    }
  }

  lemma {:induction false} FilesCount(cases: seq<CaseRow>)
    ensures |FilesOf(cases)| == 2 * |cases|
  {
    if cases != [] {
      FilesCount(cases[..|cases| - 1]);
    }
  }

  /** A row keeps its files under a new name, or starts with none. */
  function Renamed(cases: seq<CaseRow>, names: seq<string>, i: nat): CaseRow
    requires i < |names|
  {
    if i < |cases| then cases[i].(name := names[i]) else CaseRow(0, names[i], "", "")
  }

  lemma FilesSplit(cases: seq<CaseRow>, kept: nat, renamed: seq<CaseRow>)
    requires kept <= |cases| && |renamed| == kept
    requires forall i :: 0 <= i < kept ==> renamed[i].input == cases[i].input && renamed[i].output == cases[i].output
    ensures FilesOf(cases) == FilesOf(renamed) + FilesOf(cases[kept..])
  {
    hide FilesOf;
    FilesOfSame(cases[..kept], renamed);
    FilesOfAppend(cases[..kept], cases[kept..]);
    assert cases[..kept] + cases[kept..] == cases;
  }

  /** The files of the cases at and beyond the new length, in order. */
  method FilesBeyond(cases: seq<CaseRow>, length: nat) returns (oldFiles: seq<Name>)
    requires length <= |cases|
    ensures oldFiles == FilesOf(cases[length..]) && |oldFiles| == 2 * (|cases| - length)
    ensures forall i :: length <= i < |cases| ==>
      oldFiles[2 * (i - length)] == cases[i].input && oldFiles[2 * (i - length) + 1] == cases[i].output
  {
    oldFiles := [];
    for i := length to |cases|
      invariant oldFiles == FilesOf(cases[length..i])
    {
      FilesOfNext(cases, length, i);
      oldFiles := oldFiles + [cases[i].input];
      oldFiles := oldFiles + [cases[i].output];
    }
    assert cases[length..|cases|] == cases[length..];
    FilesCount(cases[length..]);
    forall i | length <= i < |cases|
      ensures oldFiles[2 * (i - length)] == cases[i].input && oldFiles[2 * (i - length) + 1] == cases[i].output
    {
      FilesAt(cases[length..], i - length);
    }
  }

  /**
   * The new case rows and the files to queue. Kept cases keep their files at the same index, added cases
   * have none, and the old files are exactly the kept ones followed by the queued ones.
   */
  method UpdateTestCaseNames(cases: seq<CaseRow>, newCaseNames: seq<string>)
    returns (newCases: array<CaseRow>, oldFiles: seq<Name>)
    ensures newCases.Length == |newCaseNames|
    ensures forall i :: 0 <= i < newCases.Length ==> newCases[i].name == newCaseNames[i]
    ensures forall i :: 0 <= i < newCases.Length && i < |cases| ==>
      newCases[i].id == cases[i].id && newCases[i].input == cases[i].input && newCases[i].output == cases[i].output
    ensures forall i :: |cases| <= i < newCases.Length ==>
      newCases[i].id == 0 && newCases[i].input == newCases[i].output == ""
    ensures FilesOf(cases) ==
      FilesOf(newCases[..if |cases| < |newCaseNames| then |cases| else |newCaseNames|]) + oldFiles
  {
    oldFiles := [];
    ghost var kept := if |cases| < |newCaseNames| then |cases| else |newCaseNames|;
    if |cases| > |newCaseNames| {
      oldFiles := FilesBeyond(cases, |newCaseNames|);
    }
    assert oldFiles == FilesOf(cases[kept..]);
    newCases := new CaseRow[|newCaseNames|](i => CaseRow(0, "", "", ""));
    for i := 0 to |newCaseNames|
      invariant forall j :: 0 <= j < i ==> newCases[j] == Renamed(cases, newCaseNames, j)
      invariant forall j :: i <= j < newCases.Length ==> newCases[j] == CaseRow(0, "", "", "")
    {
      if i < |cases| {
        newCases[i] := newCases[i].(input := cases[i].input, output := cases[i].output, id := cases[i].id);
      }
      newCases[i] := newCases[i].(name := newCaseNames[i]);
    }
    FilesSplit(cases, kept, newCases[..kept]);
  }
}
