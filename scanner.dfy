/**
  The lint detector IllegalCheckClassScanner: two denylists read from
  configuration lines, a classifier that matches each visited bytecode
  instruction against the denylist of its family, and a reporter that
  emits a diagnostic once per "<message> <line>" key.

  The host's calls are modelled as follows: a configuration file is the
  sequence of its lines (None when it is not a regular file), the source
  line of an instruction is an optional Int passed in by the caller, and
  context.report appends a Report to the scanner's `reports` log.
*/
module IllegalCheck {
  import opened Wrappers
  import opened Text
  import opened Opcodes

  /** The part of an ASM instruction node the scanner looks at. */
  datatype Insn =
    | MethodInsn(opcode: int, owner: string, name: string, desc: string)  // MethodInsnNode
    | FieldInsn(opcode: int, owner: string, name: string, desc: string)   // FieldInsnNode
    | OtherInsn(opcode: int)                                              // any other node type

  /** The enclosing class, by its internal (slash-separated) name. */
  datatype ClassNode = ClassNode(name: string)

  /** The enclosing method: its name and its type descriptor. */
  datatype MethodNode = MethodNode(name: string, desc: string)

  /** One diagnostic handed to the host. */
  datatype Report = Report(message: string, line: Option<int>, caller: MethodNode, insn: Insn)

  // ---------------------------------------------------------------------
  // Configuration lines

  /** A configuration line starting with "#" is a comment. */
  predicate IsComment(line: string)
    ensures IsComment(line) <==> |line| > 0 && line[0] == '#'
  {
    StartsWith(line, "#")
  }

  /** The entries a sequence of configuration lines adds, read line by line. */
  function Uncommented(lines: seq<string>): (entries: set<string>)
    ensures forall e :: e in entries <==> e in lines && !IsComment(e)
  {
    if lines == [] then {}
    else
      var last := lines[|lines| - 1];
      Uncommented(lines[..|lines| - 1]) + (if IsComment(last) then {} else {last})
  }

  /** The entries one configuration file adds; a file that is not there adds none. */
  function ConfigEntries(file: Option<seq<string>>): (entries: set<string>)
    ensures forall e :: e in entries <==> file.Some? && e in file.value && !IsComment(e)
  {
    match file
    case None => {}
    case Some(lines) => Uncommented(lines)
  }

  /** What a configuration file contributes: its non-comment lines, blank ones included. */
  lemma ConfigEntriesAreUncommentedLines(file: Option<seq<string>>, e: string)
    ensures e in ConfigEntries(file) <==> file.Some? && e in file.value && !IsComment(e)
    ensures file.Some? && "" in file.value ==> "" in ConfigEntries(file)
    ensures ConfigEntries(None) == ConfigEntries(Some([]))
  {
    assert !IsComment("");
  }

  /** A denylist file with one entry and one comment line yields exactly that entry. */
  lemma CommentLineIsSkippedExample()
    ensures Uncommented(["com.example.Foo.bar", "# ignored"]) == {"com.example.Foo.bar"}
  {
    assert IsComment("# ignored");
    assert "com.example.Foo.bar"[..1][0] == 'c';
  }

  // ---------------------------------------------------------------------
  // Identifiers and messages

  /** "<owner with / replaced by .>.<name>", the form denylist entries are written in. */
  function NormalizePath(owner: string, name: string): (r: string)
    ensures |r| == |owner| + 1 + |name|
    ensures forall i :: 0 <= i < |owner| ==> r[i] == Dotted(owner[i])
    ensures r[|owner|] == '.' && r[|owner| + 1..] == name
  {
    ReplaceSlashes(owner) + "." + name
  }

  /** An owner already in dotted form is kept as it is. */
  lemma NormalizePathOfDottedOwner(owner: string, name: string)
    requires '/' !in owner
    ensures NormalizePath(owner, name) == owner + "." + name
  {
    ReplaceSlashesKeepsSlashFree(owner);
  }

  /** An internal-form owner normalises to the dotted form used in the denylists. */
  lemma NormalizePathExample(owner: string, name: string)
    requires owner == "com/example/Foo" && name == "bar"
    ensures NormalizePath(owner, name) == "com.example.Foo.bar"
  {
    var r := NormalizePath(owner, name);
    var expected := "com.example.Foo.bar";
    forall i | 0 <= i < |r| ensures r[i] == expected[i] {
      if i < 15 {
        assert r[i] == Dotted(owner[i]);
      } else if i > 15 {
        assert r[i] == r[16..][i - 16];
      }
    }
  }

  /** The caller "<class dotted>.<method name><descriptor>"; the descriptor is not rewritten. */
  function CallerSignature(cls: ClassNode, m: MethodNode): (r: string)
    ensures |r| == |cls.name| + 1 + |m.name| + |m.desc|
    ensures forall i :: 0 <= i < |cls.name| ==> r[i] == Dotted(cls.name[i])
    ensures r[|cls.name|] == '.'
    ensures r[|cls.name| + 1..] == m.name + m.desc
  {
    var r := ReplaceSlashes(cls.name) + "." + m.name + m.desc;
    assert r[|cls.name| + 1..] == m.name + m.desc;
    r
  }

  /** "<caller> has invoked method <target> !" */
  function InvokedMessage(caller: string, target: string): (r: string)
    ensures |r| == |caller| + 20 + |target| + 2
    ensures r[..|caller|] == caller
    ensures r[|r| - |target| - 2..] == target + " !"
  {
    caller + " has invoked method " + target + " !"
  }

  /** "<caller> has accessed field <target> !" */
  function AccessedMessage(caller: string, target: string): (r: string)
    ensures |r| == |caller| + 20 + |target| + 2
    ensures r[..|caller|] == caller
    ensures r[|r| - |target| - 2..] == target + " !"
  {
    caller + " has accessed field " + target + " !"
  }

  /** problemFun / problemField: is the normalised target in the given denylist? */
  predicate Denylisted(denylist: set<string>, owner: string, name: string)
  {
    NormalizePath(owner, name) in denylist
  }

  /**
    The message checkInstruction reports for insn, if any: invocations are
    matched against the method denylist only, field accesses against the
    field denylist only, and a node whose type does not fit its opcode (the
    failed `as?` cast) or any other opcode yields nothing.
  */
  function Violation(funs: set<string>, fields: set<string>, cls: ClassNode, m: MethodNode, insn: Insn): Option<string>
  {
    if IsInvoke(insn.opcode) then
      if insn.MethodInsn? && Denylisted(funs, insn.owner, insn.name)
      then Some(InvokedMessage(CallerSignature(cls, m), NormalizePath(insn.owner, insn.name)))
      else None
    else if IsFieldAccess(insn.opcode) then
      if insn.FieldInsn? && Denylisted(fields, insn.owner, insn.name)
      then Some(AccessedMessage(CallerSignature(cls, m), NormalizePath(insn.owner, insn.name)))
      else None
    else None
  }

  // ---------------------------------------------------------------------
  // Deduplication keys

  /** The text "${location.start?.line}" produces: the number, or "null" when absent. */
  function LineText(line: Option<int>): (r: string)
    ensures |r| >= 1
    ensures forall i :: 0 <= i < |r| ==> r[i] != ' '
  {
    match line
    case None => "null"
    case Some(n) => IntToDecimal(n)
  }

  /** The key "<message> <line>" under which a diagnostic is remembered. */
  function ReportKey(message: string, line: Option<int>): string
  {
    message + " " + LineText(line)
  }

  /** Without a source line the key ends in the text "null". */
  lemma AbsentLineKey(message: string)
    ensures ReportKey(message, None) == message + " null"
  {
  }

  /** Reads a line text back. */
  function ParseLine(s: string): Option<int>
  {
    if s == "null" then None
    else if |s| >= 1 && (s[0] == '-' || IsDigit(s[0])) && AllDigits(s[1..]) then Some(ParseInt(s))
    else None
  }

  lemma LineTextRoundTrip(line: Option<int>)
    ensures ParseLine(LineText(line)) == line
  {
    match line
    case None =>
    case Some(n) =>
      var s := IntToDecimal(n);
      IntToDecimalRoundTrip(n);
      assert s[0] != 'n';
      assert s != "null";
  }

  /** The text after the key's last space is the line text. */
  lemma KeySuffix(message: string, line: Option<int>)
    ensures var k, t := ReportKey(message, line), LineText(line);
      k[|k| - |t| - 1] == ' ' &&
      (forall i :: |k| - |t| - 1 < i < |k| ==> k[i] != ' ') &&
      k[..|message|] == message && k[|k| - |t|..] == t
  {
    var k, t := ReportKey(message, line), LineText(line);
    forall i | |k| - |t| - 1 < i < |k| ensures k[i] != ' ' {
      assert k[i] == t[i - (|k| - |t|)];
    }
  }

  /**
    Two diagnostics share a key exactly when they share message and line:
    the key neither merges distinct (message, line) pairs nor splits equal ones.
  */
  lemma ReportKeyInjective(m1: string, l1: Option<int>, m2: string, l2: Option<int>)
    requires ReportKey(m1, l1) == ReportKey(m2, l2)
    ensures m1 == m2 && l1 == l2
  {
    var k := ReportKey(m1, l1);
    var t1, t2 := LineText(l1), LineText(l2);
    KeySuffix(m1, l1);
    KeySuffix(m2, l2);
    assert |k| - |t1| - 1 == |k| - |t2| - 1;
    assert t1 == k[|k| - |t1|..] == t2;
    assert |m1| == |m2|;
    assert m1 == k[..|m1|] == m2;
    LineTextRoundTrip(l1);
    LineTextRoundTrip(l2);
  }

  /** The invocation and field-access messages differ, so a call and an access never share a key. */
  lemma MessagesTellFamiliesApart(caller: string, target1: string, target2: string)
    ensures InvokedMessage(caller, target1) != AccessedMessage(caller, target2)
  {
    var i := |caller| + 5;
    assert InvokedMessage(caller, target1)[i] == 'i';
    assert AccessedMessage(caller, target2)[i] == 'a';
  }

  // ---------------------------------------------------------------------
  // One checkInstruction call, as a function of the state it reads

  /** The dedup set after the call and the diagnostic it emits, if any. */
  datatype Outcome = Outcome(issues: set<string>, report: Option<Report>)

  function Step(funs: set<string>, fields: set<string>, issues: set<string>,
                cls: ClassNode, m: MethodNode, insn: Insn, line: Option<int>): Outcome
  {
    match Violation(funs, fields, cls, m, insn)
    case None => Outcome(issues, None)
    case Some(message) =>
      var key := ReportKey(message, line);
      if key in issues then Outcome(issues, None)
      else Outcome(issues + {key}, Some(Report(message, line, m, insn)))
  }

  function Emitted(report: Option<Report>): seq<Report>
  {
    match report
    case None => []
    case Some(r) => [r]
  }

  /**
    Classification is strict: invocations are tested only against the
    method denylist and field accesses only against the field denylist;
    other opcodes, and nodes whose type does not fit their opcode, never
    yield a message.
  */
  lemma ClassificationIsStrict(funs: set<string>, fields: set<string>, cls: ClassNode, m: MethodNode, insn: Insn)
    ensures Violation(funs, fields, cls, m, insn).Some? <==>
      (insn.MethodInsn? && IsInvoke(insn.opcode) && Denylisted(funs, insn.owner, insn.name)) ||
      (insn.FieldInsn? && IsFieldAccess(insn.opcode) && Denylisted(fields, insn.owner, insn.name))
    ensures !IsInvoke(insn.opcode) && !IsFieldAccess(insn.opcode) ==> Violation(funs, fields, cls, m, insn).None?
    ensures insn.MethodInsn? && !IsInvoke(insn.opcode) ==> Violation(funs, fields, cls, m, insn).None?
    ensures insn.FieldInsn? && !IsFieldAccess(insn.opcode) ==> Violation(funs, fields, cls, m, insn).None?
  {
  }

  /** The method denylist never decides a field access, and the field denylist never decides a call. */
  lemma DenylistsAreNotCrossChecked(funs1: set<string>, funs2: set<string>, fields1: set<string>, fields2: set<string>,
                                    cls: ClassNode, m: MethodNode, insn: Insn)
    ensures insn.MethodInsn? ==> Violation(funs1, fields1, cls, m, insn) == Violation(funs1, fields2, cls, m, insn)
    ensures insn.FieldInsn? ==> Violation(funs1, fields1, cls, m, insn) == Violation(funs2, fields1, cls, m, insn)
    ensures insn.FieldInsn? && !Denylisted(fields1, insn.owner, insn.name) ==> Violation(funs1, fields1, cls, m, insn).None?
    ensures insn.MethodInsn? && !Denylisted(funs1, insn.owner, insn.name) ==> Violation(funs1, fields1, cls, m, insn).None?
  {
  }

  /** Matching is by owner and name only: the target's descriptor plays no part. */
  lemma OverloadsAreIndistinguishable(funs: set<string>, fields: set<string>, cls: ClassNode, m: MethodNode,
                                      opcode: int, owner: string, name: string, desc1: string, desc2: string)
    ensures Violation(funs, fields, cls, m, MethodInsn(opcode, owner, name, desc1)) ==
            Violation(funs, fields, cls, m, MethodInsn(opcode, owner, name, desc2))
    ensures Violation(funs, fields, cls, m, FieldInsn(opcode, owner, name, desc1)) ==
            Violation(funs, fields, cls, m, FieldInsn(opcode, owner, name, desc2))
  {
  }

  /** A call reports only a new key, records it, and adds nothing else. */
  lemma StepRecordsReportedKey(funs: set<string>, fields: set<string>, issues: set<string>,
                               cls: ClassNode, m: MethodNode, insn: Insn, line: Option<int>)
    ensures var r := Step(funs, fields, issues, cls, m, insn, line);
      issues <= r.issues &&
      (r.report.Some? <==> r.issues != issues) &&
      (r.report.Some? ==>
        var key := ReportKey(r.report.value.message, line);
        key !in issues && r.issues == issues + {key} &&
        Violation(funs, fields, cls, m, insn) == Some(r.report.value.message) &&
        r.report.value.line == line && r.report.value.caller == m && r.report.value.insn == insn)
  {
  }

  /** Repeating a call with identical inputs emits nothing and records nothing. */
  lemma StepTwiceReportsOnce(funs: set<string>, fields: set<string>, issues: set<string>,
                             cls: ClassNode, m: MethodNode, insn: Insn, line: Option<int>)
    ensures var r1 := Step(funs, fields, issues, cls, m, insn, line);
      Step(funs, fields, r1.issues, cls, m, insn, line) == Outcome(r1.issues, None)
  {
  }

  /** Two different call sites yielding the same message on the same line get one diagnostic. */
  lemma SameMessageAndLineReportedOnce(funs: set<string>, fields: set<string>, issues: set<string>,
                                       cls1: ClassNode, m1: MethodNode, insn1: Insn,
                                       cls2: ClassNode, m2: MethodNode, insn2: Insn, line: Option<int>)
    requires Violation(funs, fields, cls1, m1, insn1) == Violation(funs, fields, cls2, m2, insn2)
    ensures var r1 := Step(funs, fields, issues, cls1, m1, insn1, line);
      Step(funs, fields, r1.issues, cls2, m2, insn2, line).report.None?
  {
  }

  /** The same violation on two different lines is reported on both, when neither was seen before. */
  lemma DistinctLinesReportedSeparately(funs: set<string>, fields: set<string>, issues: set<string>,
                                        cls: ClassNode, m: MethodNode, insn: Insn, line1: Option<int>, line2: Option<int>)
    requires line1 != line2
    requires Violation(funs, fields, cls, m, insn).Some?
    requires ReportKey(Violation(funs, fields, cls, m, insn).value, line2) !in issues
    ensures var r1 := Step(funs, fields, issues, cls, m, insn, line1);
      (ReportKey(Violation(funs, fields, cls, m, insn).value, line1) !in issues ==> r1.report.Some?) &&
      Step(funs, fields, r1.issues, cls, m, insn, line2).report.Some?
  {
    var v := Violation(funs, fields, cls, m, insn).value;
    if ReportKey(v, line1) == ReportKey(v, line2) {
      ReportKeyInjective(v, line1, v, line2);
    }
  }

  /** With both denylists empty nothing is ever reported. */
  lemma AbsentConfigReportsNothing(issues: set<string>, cls: ClassNode, m: MethodNode, insn: Insn, line: Option<int>)
    ensures Step({}, {}, issues, cls, m, insn, line) == Outcome(issues, None)
  {
  }

  // ---------------------------------------------------------------------
  // The reports emitted so far

  function KeysOf(reports: seq<Report>): set<string>
  {
    set r | r in reports :: ReportKey(r.message, r.line)
  }

  predicate Reported(reports: seq<Report>, message: string, line: Option<int>)
  {
    exists i :: 0 <= i < |reports| && reports[i].message == message && reports[i].line == line
  }

  /** No two diagnostics carry the same message and line. */
  predicate NoRepeatedDiagnostic(reports: seq<Report>)
  {
    forall i, j :: 0 <= i < j < |reports| ==>
      reports[i].message != reports[j].message || reports[i].line != reports[j].line
  }

  /** A key is recorded exactly when a diagnostic with that message and line was emitted. */
  lemma KeyRecordedIffReported(reports: seq<Report>, message: string, line: Option<int>)
    ensures ReportKey(message, line) in KeysOf(reports) <==> Reported(reports, message, line)
  {
    if ReportKey(message, line) in KeysOf(reports) {
      var r :| r in reports && ReportKey(r.message, r.line) == ReportKey(message, line);
      ReportKeyInjective(r.message, r.line, message, line);
      var i :| 0 <= i < |reports| && reports[i] == r;
    }
    if Reported(reports, message, line) {
      var i :| 0 <= i < |reports| && reports[i].message == message && reports[i].line == line;
      assert reports[i] in reports;
    }
  }

  // ---------------------------------------------------------------------
  // The detector object

  class IllegalCheckClassScanner {
    var problemFunSet: set<string>
    var problemFieldSet: set<string>
    var reportIssues: set<string>
    /** The diagnostics handed to context.report, in order. */
    var reports: seq<Report>

    /** reportIssues holds exactly the keys of the emitted diagnostics, which never repeat. */
    ghost predicate Valid()
      reads this
    {
      reportIssues == KeysOf(reports) && NoRepeatedDiagnostic(reports)
    }

    constructor ()
      ensures Valid()
      ensures problemFunSet == {} && problemFieldSet == {} && reportIssues == {} && reports == []
    {
      problemFunSet := {};
      problemFieldSet := {};
      reportIssues := {};
      reports := [];
    }

    /**
      Adds the non-comment lines of the method and field configuration
      files to the two denylists. Nothing is cleared: entries and keys of
      earlier runs stay.
    */
    method BeforeCheckRootProject(methodCfg: Option<seq<string>>, fieldCfg: Option<seq<string>>)
      requires Valid()
      modifies this
      ensures Valid()
      ensures problemFunSet == old(problemFunSet) + ConfigEntries(methodCfg)
      ensures problemFieldSet == old(problemFieldSet) + ConfigEntries(fieldCfg)
      ensures reportIssues == old(reportIssues) && reports == old(reports)
    {
      if methodCfg.Some? {
        var lines := methodCfg.value;
        var i := 0;
        while i < |lines|
          invariant 0 <= i <= |lines|
          invariant problemFunSet == old(problemFunSet) + Uncommented(lines[..i])
          invariant problemFieldSet == old(problemFieldSet)
          invariant reportIssues == old(reportIssues) && reports == old(reports)
        {
          assert lines[..i + 1][..i] == lines[..i];
          assert Uncommented(lines[..i + 1]) ==
            Uncommented(lines[..i]) + (if IsComment(lines[i]) then {} else {lines[i]});
          if !IsComment(lines[i]) {
            problemFunSet := problemFunSet + {lines[i]};
          }
          i := i + 1;
        }
        assert lines[..i] == lines;
      }
      if fieldCfg.Some? {
        var lines := fieldCfg.value;
        var i := 0;
        while i < |lines|
          invariant 0 <= i <= |lines|
          invariant problemFieldSet == old(problemFieldSet) + Uncommented(lines[..i])
          invariant problemFunSet == old(problemFunSet) + ConfigEntries(methodCfg)
          invariant reportIssues == old(reportIssues) && reports == old(reports)
        {
          assert lines[..i + 1][..i] == lines[..i];
          assert Uncommented(lines[..i + 1]) ==
            Uncommented(lines[..i]) + (if IsComment(lines[i]) then {} else {lines[i]});
          if !IsComment(lines[i]) {
            problemFieldSet := problemFieldSet + {lines[i]};
          }
          i := i + 1;
        }
        assert lines[..i] == lines;
      }
    }

    /**
      Visits one instruction of method m in class cls; line is the source
      line the host's location gives for it, if any.
    */
    method CheckInstruction(cls: ClassNode, m: MethodNode, insn: Insn, line: Option<int>)
      requires Valid()
      modifies this
      ensures Valid()
      ensures problemFunSet == old(problemFunSet) && problemFieldSet == old(problemFieldSet)
      ensures var r := Step(old(problemFunSet), old(problemFieldSet), old(reportIssues), cls, m, insn, line);
        reportIssues == r.issues && reports == old(reports) + Emitted(r.report)
      ensures var v := Violation(old(problemFunSet), old(problemFieldSet), cls, m, insn);
        |reports| == |old(reports)| + 1 <==> v.Some? && !Reported(old(reports), v.value, line)
    {
      var callerMethodSig := CallerSignature(cls, m);
      if IsInvoke(insn.opcode) {
        if insn.MethodInsn? {
          if Denylisted(problemFunSet, insn.owner, insn.name) {
            var message := InvokedMessage(callerMethodSig, NormalizePath(insn.owner, insn.name));
            ReportOnce(message, line, m, insn);
          }
        }
      } else if IsFieldAccess(insn.opcode) {
        if insn.FieldInsn? {
          if Denylisted(problemFieldSet, insn.owner, insn.name) {
            var message := AccessedMessage(callerMethodSig, NormalizePath(insn.owner, insn.name));
            ReportOnce(message, line, m, insn);
          }
        }
      }
    }

    /** Emits the diagnostic unless one with the same message and line was emitted already. */
    method ReportOnce(message: string, line: Option<int>, caller: MethodNode, insn: Insn)
      requires Valid()
      modifies this`reportIssues, this`reports
      ensures Valid()
      ensures ReportKey(message, line) in reportIssues
      ensures old(ReportKey(message, line) in reportIssues) <==> old(Reported(reports, message, line))
      ensures old(Reported(reports, message, line)) ==>
        reportIssues == old(reportIssues) && reports == old(reports)
      ensures !old(Reported(reports, message, line)) ==>
        reportIssues == old(reportIssues) + {ReportKey(message, line)} &&
        reports == old(reports) + [Report(message, line, caller, insn)]
    {
      var reportIssue := ReportKey(message, line);
      KeyRecordedIffReported(reports, message, line);
      if reportIssue !in reportIssues {
        var r := Report(message, line, caller, insn);
        assert KeysOf(reports + [r]) == KeysOf(reports) + {reportIssue};
        reportIssues := reportIssues + {reportIssue};
        reports := reports + [r];
      }
    }
  }
}
