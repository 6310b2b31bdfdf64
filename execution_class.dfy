/** The crash taxonomy of src/execution_class.rs: a constant table of severity
    classes, exact lookup by short name (`find`), the sanitizer-aware lookup
    (`san_find`), the `Default` class and the `Display` text. */
module ExecutionClasses {
  import opened Wrappers
  import opened Strings

  /** One row of `CLASSES`: (severity, short description, description, explanation). */
  type ClassTuple = (string, string, string, string)

  /** `ExecutionClass`: the classification stored in a crash report. */
  datatype ExecutionClass = ExecutionClass(
    severity: string,
    shortDescription: string,
    description: string,
    explanation: string)

  /** `error::Error::Casr`, the only error the lookups produce. */
  datatype Error = Casr(message: string)

  /** The four severities the table uses. */
  const SEVERITIES: set<string> := {"EXPLOITABLE", "PROBABLY_EXPLOITABLE", "NOT_EXPLOITABLE", "UNDEFINED"}

  // `CLASSES` is one array in the source; it is written here as the
  // concatenation of its three runs of rows so that facts about every row can
  // be checked a run at a time.

  /** Rows 1-24: classes decided from the faulting instruction or the signal. */
  const INSTRUCTION_CLASSES: seq<ClassTuple> := [
    ("EXPLOITABLE", "SegFaultOnPc", "Segmentation fault on program counter", "The target tried to access data at an address that matches the program counter. This likely indicates that the program counter contents are tainted and can be controlled by an attacker."),
    ("EXPLOITABLE", "ReturnAv", "Access violation during return instruction", "The target crashed on a return instruction, which likely indicates stack corruption."),
    ("EXPLOITABLE", "BranchAv", "Access violation during branch instruction", "The target crashed on a branch instruction, which may indicate that the control flow is tainted."),
    ("EXPLOITABLE", "CallAv", "Access violation during call instruction", "The target crashed on a call instruction, which may indicate that the control flow is tainted."),
    ("EXPLOITABLE", "DestAv", "Access violation on destination operand", "The target crashed on an access violation at an address matching the destination operand of the instruction. This likely indicates a write access violation, which means the attacker may control the write address and/or value."),
    ("EXPLOITABLE", "BranchAvTainted", "Access violation during branch instruction from tainted source", "The target crashed on loading from memory (SourceAv). After taint tracking, target operand of branch instruction could be tainted."),
    ("EXPLOITABLE", "CallAvTainted", "Access violation during call instruction from tainted source", "The target crashed on loading from memory (SourceAv). After taint tracking, target operand of call instruction could be tainted."),
    ("EXPLOITABLE", "DestAvTainted", "Access violation on destination operand from tainted source", "The target crashed on loading from memory (SourceAv). After taint tracking, addres operand of memory store instruction could be tainted. This likely indicates a write access violation, which means the attacker may control the write address and/or value."),
    ("NOT_EXPLOITABLE", "AbortSignal", "Abort signal", "The target is stopped on a SIGABRT. SIGABRTs are often generated by libc and compiled check-code to indicate potentially exploitable conditions."),
    ("NOT_EXPLOITABLE", "TrapSignal", "Trap signal", "The target is stopped on a SIGTRAP. The SIGTRAP signal is sent to a process when an exception (or trap) occurs: a condition that a debugger has requested to be informed of \U{2013} for example, when a particular function is executed, or when a particular variable changes value. "),
    ("NOT_EXPLOITABLE", "AccessViolation", "Access violation", "The target crashed due to an access violation but there is not enough additional information available to determine exploitability. Manual analysis is needed."),
    ("NOT_EXPLOITABLE", "SourceAv", "Access violation on source operand", "The target crashed on an access violation at an address matching the source operand of the current instruction. This likely indicates a read access violation."),
    ("PROBABLY_EXPLOITABLE", "BadInstruction", "Bad instruction", "The target tried to execute a malformed or privileged instruction. This may indicate that the control flow is tainted."),
    ("PROBABLY_EXPLOITABLE", "SegFaultOnPcNearNull", "Segmentation fault on program counter near NULL", "The target tried to access data at an address that matches the program counter. This may indicate that the program counter contents are tainted, however, it may also indicate a simple NULL dereference."),
    ("PROBABLY_EXPLOITABLE", "BranchAvNearNull", "Access violation near NULL during branch instruction", "The target crashed on a branch instruction, which may indicate that the control flow is tainted. However, there is a chance it could be a NULL dereference."),
    ("PROBABLY_EXPLOITABLE", "CallAvNearNull", "Access violation near NULL during call instruction", "The target crashed on a call instruction, which may indicate that the control flow is tainted. However, there is a chance it could be a NULL dereference."),
    ("PROBABLY_EXPLOITABLE", "DestAvNearNull", "Access violation near NULL on destination operand", "The target crashed on an access violation at an address matching the destination operand of the instruction. This likely indicates a write access violation, which means the attacker may control write address and/or value. However, it there is a chance it could be a NULL dereference."),
    ("NOT_EXPLOITABLE", "SourceAvNearNull", "Access violation near NULL on source operand", "The target crashed on an access violation at an address matching the source operand of the current instruction. This likely indicates a read access violation, which may mean the application crashed on a simple NULL dereference to data structure that has no immediate effect on control of the processor."),
    ("PROBABLY_EXPLOITABLE", "StackGuard", "Stack buffer overflow", "The target program is aborted due to stack cookie overwrite."),
    ("NOT_EXPLOITABLE", "SafeFunctionCheck", "Safe function check guard", "The target program is aborted due to safe function check guard: _chk()."),
    ("PROBABLY_EXPLOITABLE", "HeapError", "Heap error", "The target program is aborted due to error produced by heap allocator functions."),
    ("NOT_EXPLOITABLE", "FPE", "Arithmetic exception", "The target crashed due to arithmetic floating point exception."),
    ("NOT_EXPLOITABLE", "StackOverflow", "Stack overflow", "The target crashed on an access violation where the faulting instruction's mnemonic and the stack pointer seem to indicate a stack overflow."),
    ("UNDEFINED", "Undefined", "Undefined class", "There is no execution class for this type of exception.")
  ]

  /** Rows 25-54: sanitizer memory errors, with their (read)/(write) variants. */
  const MEMORY_ERROR_CLASSES: seq<ClassTuple> := [
    ("NOT_EXPLOITABLE", "double-free", "Deallocation of freed memory", "The target crashed while trying to deallocate already freed memory."),
    ("NOT_EXPLOITABLE", "bad-free", "Invalid memory deallocation", "The target crashed on attempting free on address which was not malloc()-ed."),
    ("NOT_EXPLOITABLE", "alloc-dealloc-mismatch", "Invalid use of alloc/dealloc functions", "Mismatch between allocation and deallocation APIs."),
    ("NOT_EXPLOITABLE", "unknown-crash", "Sanitizer check fail", "Invalid memory access."),
    ("NOT_EXPLOITABLE", "heap-buffer-overflow(read)", "Heap buffer overflow", "The target reads data past the end, or before the beginning, of the intended heap buffer."),
    ("PROBABLY_EXPLOITABLE", "heap-buffer-overflow", "Heap buffer overflow", "The target attempts to read or write data past the end, or before the beginning, of the intended heap buffer."),
    ("EXPLOITABLE", "heap-buffer-overflow(write)", "Heap buffer overflow", "The target writes data past the end, or before the beginning, of the intended heap buffer."),
    ("NOT_EXPLOITABLE", "global-buffer-overflow(read)", "Global buffer overflow", "The target reads data past the end, or before the beginning, of the intended global buffer."),
    ("PROBABLY_EXPLOITABLE", "global-buffer-overflow", "Global buffer overflow", "The target attempts to read or write data past the end, or before the beginning, of the intended global buffer."),
    ("EXPLOITABLE", "global-buffer-overflow(write)", "Global buffer overflow", "The target writes data past the end, or before the beginning, of the intended global buffer."),
    ("NOT_EXPLOITABLE", "stack-use-after-scope(read)", "Use of out-of-scope stack memory", "The target crashed when reading from a stack address outside the lexical scope of a variable's lifetime."),
    ("PROBABLY_EXPLOITABLE", "stack-use-after-scope", "Use of out-of-scope stack memory", "The target crashed when using a stack address outside the lexical scope of a variable's lifetime."),
    ("EXPLOITABLE", "stack-use-after-scope(write)", "Use of out-of-scope stack memory", "The target crashed when writing on a stack address outside the lexical scope of a variable's lifetime."),
    ("PROBABLY_EXPLOITABLE", "use-after-poison", "Using poisoned memory", "The target crashed on trying to use the memory that was previously poisoned."),
    ("NOT_EXPLOITABLE", "stack-use-after-return(read)", "Use of stack memory after return", "The target crashed when reading from a stack memory of a returned function."),
    ("PROBABLY_EXPLOITABLE", "stack-use-after-return", "Use of stack memory after return", "The target crashed when using a stack memory of a returned function."),
    ("EXPLOITABLE", "stack-use-after-return(write)", "Use of stack memory after return", "The target crashed when writing to a stack memory of a returned function."),
    ("NOT_EXPLOITABLE", "stack-buffer-overflow(read)", "Stack buffer overflow", "The target reads data past the end, or before the beginning, of the intended stack buffer."),
    ("PROBABLY_EXPLOITABLE", "stack-buffer-overflow", "Stack buffer overflow", "The target attempts to read or write data past the end, or before the beginning, of the intended stack buffer."),
    ("EXPLOITABLE", "stack-buffer-overflow(write)", "Stack buffer overflow", "The target writes data past the end, or before the beginning, of the intended stack buffer."),
    ("NOT_EXPLOITABLE", "initialization-order-fiasco", "Bad initialization order", "Initializer for a global variable accesses dynamically initialized global from another translation unit, which is not yet initialized."),
    ("NOT_EXPLOITABLE", "stack-buffer-underflow(read)", "Stack buffer underflow", "The target reads from a buffer using buffer access mechanisms such as indexes or pointers that reference memory locations prior to the targeted buffer."),
    ("PROBABLY_EXPLOITABLE", "stack-buffer-underflow", "Stack buffer underflow", "The target is using buffer with an index or pointer that references a memory location prior to the beginning of the buffer."),
    ("EXPLOITABLE", "stack-buffer-underflow(write)", "Stack buffer underflow", "The target writes to a buffer using an index or pointer that references a memory location prior to the beginning of the buffer."),
    ("NOT_EXPLOITABLE", "heap-use-after-free(read)", "Use of deallocated memory", "The target crashed when reading from memory after it has been freed."),
    ("PROBABLY_EXPLOITABLE", "heap-use-after-free", "Use of deallocated memory", "The target crashed when using memory after it has been freed."),
    ("EXPLOITABLE", "heap-use-after-free(write)", "Use of deallocated memory", "The target crashed when writing to memory after it has been freed."),
    ("NOT_EXPLOITABLE", "container-overflow(read)", "Container overflow", "The target crashed when reading from memory inside the allocated heap region but outside of the current container bounds."),
    ("PROBABLY_EXPLOITABLE", "container-overflow", "Container overflow", "The target crashed when using memory inside the allocated heap region but outside of the current container bounds."),
    ("EXPLOITABLE", "container-overflow(write)", "Container overflow", "The target crashed when writing to memory inside the allocated heap region but outside of the current container bounds.")
  ]

  /** Rows 55-71: other sanitizer reports and the libFuzzer outcomes. */
  const OTHER_SANITIZER_CLASSES: seq<ClassTuple> := [
    ("NOT_EXPLOITABLE", "new-delete-type-mismatch", "Invalid use of new/delete functions", "Deallocation size different from allocation size."),
    ("NOT_EXPLOITABLE", "bad-malloc_usable_size", "Bad function use", "Invalid argument to malloc_usable_size."),
    ("EXPLOITABLE", "param-overlap", "Overlapping memory ranges", "Call to function disallowing overlapping memory ranges."),
    ("PROBABLY_EXPLOITABLE", "negative-size-param", "Use of negative size", "Negative size used when accessing memory."),
    ("NOT_EXPLOITABLE", "odr-violation", "Multiple symbol definition", "Symbol defined in multiple translation units."),
    ("NOT_EXPLOITABLE", "memory-leaks", "Memory leaks", "The target does not sufficiently track and release allocated memory after it has been used, which slowly consumes remaining memory."),
    ("PROBABLY_EXPLOITABLE", "calloc-overflow", "Calloc parameters overflow", "Overflow in calloc parameters."),
    ("PROBABLY_EXPLOITABLE", "reallocarray-overflow", "Realloc parameters overflow", "Overflow in realloc parameters."),
    ("PROBABLY_EXPLOITABLE", "pvalloc-overflow", "Pvalloc parameters overflow", "Overflow in pvalloc parameters."),
    ("NOT_EXPLOITABLE", "invalid-allocation-alignment", "Invalid alignment", "Invalid allocation alignment."),
    ("NOT_EXPLOITABLE", "invalid-aligned-alloc-alignment", "Invalid alignment", "Invalid alignment requested in aligned_alloc."),
    ("NOT_EXPLOITABLE", "invalid-posix-memalign-alignment", "Invalid alignment", "Invalid alignment requested in posix_memalign."),
    ("NOT_EXPLOITABLE", "allocation-size-too-big", "Allocation size too big", "Requested allocation size exceeds maximum supported size."),
    ("NOT_EXPLOITABLE", "out-of-memory", "Memory limit exceeded", "The target has exceeded the memory limit."),
    ("NOT_EXPLOITABLE", "fuzz target exited", "Fuzz target exited", "Fuzz target exited."),
    ("NOT_EXPLOITABLE", "timeout", "Target timeout expired", "Timeout after several seconds."),
    ("PROBABLY_EXPLOITABLE", "overwrites-const-input", "Attempt to overwrite constant input", "Fuzz target overwrites its constant input.")
  ]

  /** `CLASSES`. */
  const CLASSES: seq<ClassTuple> := INSTRUCTION_CLASSES + MEMORY_ERROR_CLASSES + OTHER_SANITIZER_CLASSES

  /** A short description that names a row of the table. */
  ghost predicate IsKey(key: string) {
    exists i :: 0 <= i < |CLASSES| && CLASSES[i].1 == key
  }

  /** A class that is some row of the table, copied field by field. */
  ghost predicate IsTableClass(c: ExecutionClass) {
    exists i :: 0 <= i < |CLASSES| && New(CLASSES[i]) == c
  }

  /** `ExecutionClass::new`: the class built from one row. */
  function New(row: ClassTuple): ExecutionClass {
    ExecutionClass(row.0, row.1, row.2, row.3)
  }

  /** The `for` loop of `find`, from row `from` on: the first row whose short
      description is `key`. */
  function FindFrom(key: string, from: nat): (r: Option<nat>)
    requires from <= |CLASSES|
    ensures r.Some? ==> from <= r.value < |CLASSES| && CLASSES[r.value].1 == key
                        && forall j :: from <= j < r.value ==> CLASSES[j].1 != key
    ensures r.None? ==> forall j :: from <= j < |CLASSES| ==> CLASSES[j].1 != key
    decreases |CLASSES| - from
  {
    if from == |CLASSES| then None
    else if CLASSES[from].1 == key then Some(from)
    else FindFrom(key, from + 1)
  }

  /** `ExecutionClass::find`: the first row whose short description equals
      `shortDesc`, all four fields copied; an error naming `shortDesc` when no
      row has it. */
  function Find(shortDesc: string): (r: Result<ExecutionClass, Error>)
    ensures r.Ok? <==> IsKey(shortDesc)
    ensures r.Ok? ==> exists i :: 0 <= i < |CLASSES| && CLASSES[i].1 == shortDesc
                                  && r.value == New(CLASSES[i])
                                  && forall j :: 0 <= j < i ==> CLASSES[j].1 != shortDesc
    ensures r.Ok? ==> r.value.shortDescription == shortDesc
    ensures r.Err? ==> r.error == Casr("Couldn't find class " + shortDesc + " by name.")
  {
    match FindFrom(shortDesc, 0)
    case Some(i) => Ok(New(CLASSES[i]))
    case None => Err(Casr("Couldn't find class " + shortDesc + " by name."))
  }

  /** The check names `san_find` resolves by a rule of its own. */
  const SPECIAL_NAMES: set<string> := {"SEGV", "stack-overflow", "deadly"}

  /** The key `san_find` tries first for an ordinary check name: the name with
      the access direction appended when there is one. */
  function QualifiedKey(shortDesc: string, rw: Option<string>): string {
    match rw.GetOr("UNDEF")
    case "READ" => shortDesc + "(read)"
    case "WRITE" => shortDesc + "(write)"
    case _ => shortDesc
  }

  /** `ExecutionClass::san_find`: `SEGV` is refined by the access direction and
      the near-null flag and never fails; `stack-overflow` and `deadly` have
      fixed classes; any other name is looked up with its access direction
      appended first and bare second. Whatever it returns is a row of the table. */
  function SanFind(shortDesc: string, rw: Option<string>, nearNull: bool): (r: Result<ExecutionClass, Error>)
    ensures r.Ok? ==> IsTableClass(r.value)
    ensures shortDesc in SPECIAL_NAMES ==> r.Ok?
    ensures shortDesc == "SEGV" ==>
      r.value.shortDescription in {"SourceAv", "SourceAvNearNull", "DestAv", "DestAvNearNull", "AccessViolation"}
    ensures shortDesc == "stack-overflow" ==> r.value.shortDescription == "StackOverflow"
    ensures shortDesc == "deadly" ==> r.value.shortDescription == "AbortSignal"
    ensures shortDesc !in SPECIAL_NAMES ==>
      (r.Ok? <==> IsKey(QualifiedKey(shortDesc, rw)) || IsKey(shortDesc))
    ensures shortDesc !in SPECIAL_NAMES && r.Ok? ==>
      r.value.shortDescription == if IsKey(QualifiedKey(shortDesc, rw)) then QualifiedKey(shortDesc, rw) else shortDesc
  {
    FindKeysOfSanFind();
    match shortDesc
    case "SEGV" =>
      (match (rw.GetOr("UNDEF"), nearNull)
       case ("READ", false) => Find("SourceAv")
       case ("READ", true) => Find("SourceAvNearNull")
       case ("WRITE", false) => Find("DestAv")
       case ("WRITE", true) => Find("DestAvNearNull")
       case (_, _) => Find("AccessViolation"))
    case "stack-overflow" => Find("StackOverflow")
    case "deadly" => Find("AbortSignal")
    case _ =>
      var pattern := QualifiedKey(shortDesc, rw);
      if Find(pattern).Ok? then Find(pattern) else Find(shortDesc)
  }

  /** The fixed classes `san_find` falls back on are rows of the table. */
  lemma FindKeysOfSanFind()
    ensures IsKey("SourceAv") && IsKey("SourceAvNearNull") && IsKey("DestAv")
    ensures IsKey("DestAvNearNull") && IsKey("AccessViolation")
    ensures IsKey("StackOverflow") && IsKey("AbortSignal")
  {
    assert CLASSES[11].1 == "SourceAv";
    assert CLASSES[17].1 == "SourceAvNearNull";
    assert CLASSES[4].1 == "DestAv";
    assert CLASSES[16].1 == "DestAvNearNull";
    assert CLASSES[10].1 == "AccessViolation";
    assert CLASSES[22].1 == "StackOverflow";
    assert CLASSES[8].1 == "AbortSignal";
  }

  /** The classes `casr-san` looks up by name are rows of the table. */
  lemma FindKeysOfDriver()
    ensures IsKey("BadInstruction") && IsKey("AbortSignal") && IsKey("memory-leaks")
  {
    assert CLASSES[12].1 == "BadInstruction";
    assert CLASSES[8].1 == "AbortSignal";
    assert CLASSES[59].1 == "memory-leaks";
  }

  /** `impl Default for ExecutionClass`. */
  function Default(): ExecutionClass {
    ExecutionClass("UNDEFINED", "Undefined", "Undefined class",
                   "The is no execution class for this type of exception")
  }

  /** `impl Display for ExecutionClass`. */
  function Display(c: ExecutionClass): string {
    var explanation := if c.explanation != "" then "\nExplanation: " + c.explanation else "";
    "Severity: " + c.severity + "\nShort description: " + c.shortDescription
      + "\nDescription: " + c.description + explanation
  }

  // ---------------------------------------------------------------------------
  // The table

  ghost predicate DistinctKeys(rows: seq<ClassTuple>) {
    forall i, j :: 0 <= i < j < |rows| ==> rows[i].1 != rows[j].1
  }

  ghost predicate KnownSeverities(rows: seq<ClassTuple>) {
    forall i :: 0 <= i < |rows| ==> rows[i].0 in SEVERITIES
  }

  lemma InstructionKeysDistinct()
    ensures forall i, j :: 0 <= i < j < |INSTRUCTION_CLASSES| ==> INSTRUCTION_CLASSES[i].1 != INSTRUCTION_CLASSES[j].1
  {
  }

  lemma MemoryErrorKeysDistinct()
    ensures forall i, j :: 0 <= i < j < |MEMORY_ERROR_CLASSES| ==> MEMORY_ERROR_CLASSES[i].1 != MEMORY_ERROR_CLASSES[j].1
  {
  }

  lemma OtherSanitizerKeysDistinct()
    ensures forall i, j :: 0 <= i < j < |OTHER_SANITIZER_CLASSES| ==> OTHER_SANITIZER_CLASSES[i].1 != OTHER_SANITIZER_CLASSES[j].1
  {
  }

  /** CASR's own class names are CamelCase ... */
  lemma InstructionKeysCapitalised()
    ensures forall i :: 0 <= i < |INSTRUCTION_CLASSES| ==> |INSTRUCTION_CLASSES[i].1| > 0 && 'A' <= INSTRUCTION_CLASSES[i].1[0] <= 'Z'
  {
  }

  /** ... while the sanitizer check names are lower-case. */
  lemma MemoryErrorKeysLowerCase()
    ensures forall i :: 0 <= i < |MEMORY_ERROR_CLASSES| ==> |MEMORY_ERROR_CLASSES[i].1| > 0 && 'a' <= MEMORY_ERROR_CLASSES[i].1[0] <= 'z'
  {
  }

  lemma OtherSanitizerKeysLowerCase()
    ensures forall i :: 0 <= i < |OTHER_SANITIZER_CLASSES| ==> |OTHER_SANITIZER_CLASSES[i].1| > 0 && 'a' <= OTHER_SANITIZER_CLASSES[i].1[0] <= 'z'
  {
  }

  lemma SanitizerRunsDisjoint()
    ensures forall i, j :: 0 <= i < |MEMORY_ERROR_CLASSES| && 0 <= j < |OTHER_SANITIZER_CLASSES| ==>
      MEMORY_ERROR_CLASSES[i].1 != OTHER_SANITIZER_CLASSES[j].1
  {
  }

  lemma RunsHaveKnownSeverities()
    ensures KnownSeverities(INSTRUCTION_CLASSES)
    ensures KnownSeverities(MEMORY_ERROR_CLASSES)
    ensures KnownSeverities(OTHER_SANITIZER_CLASSES)
  {
  }

  /** `CLASSES` has 71 rows, no two rows share a short description, and every
      severity is one of the four of `SEVERITIES`. */
  lemma ClassTable()
    ensures |CLASSES| == 71
    ensures DistinctKeys(CLASSES)
    ensures KnownSeverities(CLASSES)
  {
    var a, b, c := INSTRUCTION_CLASSES, MEMORY_ERROR_CLASSES, OTHER_SANITIZER_CLASSES;
    InstructionKeysDistinct();
    MemoryErrorKeysDistinct();
    OtherSanitizerKeysDistinct();
    InstructionKeysCapitalised();
    MemoryErrorKeysLowerCase();
    OtherSanitizerKeysLowerCase();
    SanitizerRunsDisjoint();
    RunsHaveKnownSeverities();
    assert |a| == 24 && |b| == 30 && |c| == 17;
    forall i | 0 <= i < |CLASSES|
      ensures CLASSES[i] == if i < 24 then a[i] else if i < 54 then b[i - 24] else c[i - 54]
    {
    }
  }

  /** Every short description in the table finds exactly its own row. */
  lemma FindTableRow(i: nat)
    requires i < |CLASSES|
    ensures Find(CLASSES[i].1) == Ok(New(CLASSES[i]))
  {
    ClassTable();
  }

  /** A class of the table is what looking up its own short description
      gives: the short description pins the whole row. */
  lemma TableClassIsFound(c: ExecutionClass)
    requires IsTableClass(c)
    ensures Find(c.shortDescription) == Ok(c)
  {
    var i :| 0 <= i < |CLASSES| && New(CLASSES[i]) == c;
    FindTableRow(i);
  }

  /** A name that none of the three runs holds is not a short description of the table. */
  lemma NotInTable(key: string)
    requires forall i :: 0 <= i < |INSTRUCTION_CLASSES| ==> INSTRUCTION_CLASSES[i].1 != key
    requires forall i :: 0 <= i < |MEMORY_ERROR_CLASSES| ==> MEMORY_ERROR_CLASSES[i].1 != key
    requires forall i :: 0 <= i < |OTHER_SANITIZER_CLASSES| ==> OTHER_SANITIZER_CLASSES[i].1 != key
    ensures !IsKey(key)
  {
    var a, b, c := INSTRUCTION_CLASSES, MEMORY_ERROR_CLASSES, OTHER_SANITIZER_CLASSES;
    forall i | 0 <= i < |CLASSES| ensures CLASSES[i].1 != key {
      if i < |a| {
        assert CLASSES[i] == a[i];
      } else if i < |a| + |b| {
        assert CLASSES[i] == b[i - |a|];
      } else {
        assert CLASSES[i] == c[i - |a| - |b|];
      }
    }
  }

  /** `SEGV`, `deadly` and `stack-overflow`, the names `san_find` treats
      specially, are not rows: `find` fails on them. */
  lemma FindRejectsSpecialNames()
    ensures Find("SEGV").Err? && Find("deadly").Err? && Find("stack-overflow").Err?
  {
    NotInTable("SEGV");
    NotInTable("deadly");
    NotInTable("stack-overflow");
  }

  /** The five outcomes of `SEGV`: read or write access, near NULL or not; any
      other access, `ACCESS` or none at all gives `AccessViolation`. */
  lemma SanFindSegv(rw: Option<string>, nearNull: bool)
    ensures SanFind("SEGV", rw, nearNull).Ok?
    ensures SanFind("SEGV", rw, nearNull).value.shortDescription ==
      if rw == Some("READ") then (if nearNull then "SourceAvNearNull" else "SourceAv")
      else if rw == Some("WRITE") then (if nearNull then "DestAvNearNull" else "DestAv")
      else "AccessViolation"
  {
  }

  /** `stack-overflow` and `deadly` do not depend on the access information. */
  lemma SanFindFixedNames(rw: Option<string>, nearNull: bool)
    ensures SanFind("stack-overflow", rw, nearNull) == SanFind("stack-overflow", None, false)
    ensures SanFind("stack-overflow", rw, nearNull).Ok?
    ensures SanFind("stack-overflow", rw, nearNull).value.shortDescription == "StackOverflow"
    ensures SanFind("deadly", rw, nearNull) == SanFind("deadly", None, false)
    ensures SanFind("deadly", rw, nearNull).Ok?
    ensures SanFind("deadly", rw, nearNull).value.shortDescription == "AbortSignal"
  {
  }

  /** Without a read or write direction an ordinary name is looked up as it is. */
  lemma SanFindWithoutDirection(shortDesc: string, rw: Option<string>, nearNull: bool)
    requires shortDesc !in SPECIAL_NAMES
    requires rw.GetOr("UNDEF") != "READ" && rw.GetOr("UNDEF") != "WRITE"
    ensures SanFind(shortDesc, rw, nearNull) == Find(shortDesc)
  {
  }

  /** A heap overflow on a write is the `(write)` row ... */
  lemma SanFindHeapOverflowWrite(check: string, nearNull: bool)
    requires check == "heap-buffer-overflow"
    ensures SanFind(check, Some("WRITE"), nearNull).Ok?
    ensures SanFind(check, Some("WRITE"), nearNull).value.shortDescription == "heap-buffer-overflow(write)"
  {
    assert check + "(write)" == "heap-buffer-overflow(write)";
    assert CLASSES[30].1 == "heap-buffer-overflow(write)";
  }

  /** ... with no direction it is the bare row ... */
  lemma SanFindHeapOverflowUndirected(nearNull: bool)
    ensures SanFind("heap-buffer-overflow", None, nearNull).Ok?
    ensures SanFind("heap-buffer-overflow", None, nearNull).value.shortDescription
            == "heap-buffer-overflow"
  {
    assert CLASSES[29].1 == "heap-buffer-overflow";
  }

  /** ... and `use-after-poison` has no `(read)` row, so a read falls back to
      the bare one. */
  lemma SanFindUseAfterPoisonRead(nearNull: bool)
    ensures SanFind("use-after-poison", Some("READ"), nearNull).Ok?
    ensures SanFind("use-after-poison", Some("READ"), nearNull).value.shortDescription
            == "use-after-poison"
  {
    assert CLASSES[37].1 == "use-after-poison";
    assert "use-after-poison" + "(read)" == "use-after-poison(read)";
    NotInTable("use-after-poison(read)");
  }

  /** A check name without whitespace resolves to a class whose short
      description has none either. */
  lemma SanFindKeepsNoWhitespace(shortDesc: string, rw: Option<string>, nearNull: bool)
    requires NoWhitespace(shortDesc)
    requires SanFind(shortDesc, rw, nearNull).Ok?
    ensures NoWhitespace(SanFind(shortDesc, rw, nearNull).value.shortDescription)
  {
    if shortDesc in SPECIAL_NAMES {
      SpecialClassHasNoWhitespace(shortDesc, rw, nearNull);
    } else {
      QualifiedKeyHasNoWhitespace(shortDesc, rw);
    }
  }

  /** The `fuzz target exited` row has a space in its short description, so
      no check name without whitespace resolves to it. */
  lemma FuzzTargetExitedHasWhitespace()
    ensures !NoWhitespace("fuzz target exited")
  {
    assert IsWhitespace("fuzz target exited"[4]);
  }

  /** The classes of the names `san_find` resolves by its own rule have no
      whitespace in their short descriptions. */
  lemma SpecialClassHasNoWhitespace(shortDesc: string, rw: Option<string>, nearNull: bool)
    requires shortDesc in SPECIAL_NAMES
    ensures NoWhitespace(SanFind(shortDesc, rw, nearNull).value.shortDescription)
  {
    FixedClassNamesHaveNoWhitespace();
  }

  /** The fixed names `san_find` falls back on are single words. */
  lemma FixedClassNamesHaveNoWhitespace()
    ensures NoWhitespace("SourceAv") && NoWhitespace("SourceAvNearNull")
    ensures NoWhitespace("DestAv") && NoWhitespace("DestAvNearNull")
    ensures NoWhitespace("AccessViolation") && NoWhitespace("StackOverflow")
    ensures NoWhitespace("AbortSignal")
  {
  }

  lemma QualifiedKeyHasNoWhitespace(shortDesc: string, rw: Option<string>)
    requires NoWhitespace(shortDesc)
    ensures NoWhitespace(QualifiedKey(shortDesc, rw))
  {
    var q := QualifiedKey(shortDesc, rw);
    var suffix := q[|shortDesc|..];
    assert q == shortDesc + suffix;
    assert suffix in {"(read)", "(write)", ""};
    assert NoWhitespace(suffix);
  }

  /** `Default` agrees with the table's `Undefined` row on severity, short
      description and description, but its explanation text is different, so
      the two classes are not equal. */
  lemma DefaultVersusUndefinedRow()
    ensures Find("Undefined").Ok?
    ensures Default().severity == Find("Undefined").value.severity == "UNDEFINED"
    ensures Default().shortDescription == Find("Undefined").value.shortDescription
    ensures Default().description == Find("Undefined").value.description
    ensures Default().explanation != Find("Undefined").value.explanation
    ensures Default() != Find("Undefined").value
  {
    FindTableRow(23);
  }

  /** The lines `Display` writes, one per field, the explanation only when it
      is not empty. */
  function DisplayedLines(c: ExecutionClass): seq<string> {
    ["Severity: " + c.severity, "Short description: " + c.shortDescription, "Description: " + c.description]
      + (if c.explanation != "" then ["Explanation: " + c.explanation] else [])
  }

  lemma DisplayIsJoin(c: ExecutionClass)
    ensures Display(c) == Join(DisplayedLines(c), "\n")
  {
    var l1, l2, l3 := "Severity: " + c.severity, "Short description: " + c.shortDescription, "Description: " + c.description;
    var head := l1 + "\n" + l2 + "\n" + l3;
    assert "Severity: " + c.severity + "\nShort description: " + c.shortDescription + "\nDescription: " + c.description == head;
    if c.explanation != "" {
      var l4 := "Explanation: " + c.explanation;
      assert DisplayedLines(c) == [l1, l2, l3, l4];
      JoinFour(l1, l2, l3, l4, "\n");
      assert Display(c) == head + ("\n" + l4);
    } else {
      assert DisplayedLines(c) == [l1, l2, l3];
      JoinThree(l1, l2, l3, "\n");
    }
  }

  /** When no field holds a line break, the `Display` text splits at line
      breaks into exactly the field lines: three, and a fourth, the
      explanation, only when the explanation is not empty. */
  lemma DisplayLines(c: ExecutionClass)
    requires '\n' !in c.severity && '\n' !in c.shortDescription
    requires '\n' !in c.description && '\n' !in c.explanation
    ensures Split(Display(c), '\n') == DisplayedLines(c)
  {
    DisplayIsJoin(c);
    SplitJoin(DisplayedLines(c), '\n');
  }
}
