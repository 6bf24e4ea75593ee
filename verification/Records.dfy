/**
 What parts of a record hold that its rule's execution does not show or only names: header fields and
 @-constants, by the texts of the tree, and the tasks of a conc block.
 */
module Records {
  import opened Values
  import opened Ast
  import opened Text
  import opened ParseTree
  import opened Listener
  import opened FrontEnd
  import opened Runtime
  import opened Conc
  import opened Interleaving
  import opened TreeWalk

  // ---------- Texts ----------

  /** Removing quotes works on each character by itself. */
  lemma {:induction false} StripQuotesConcat(a: string, b: string)
    ensures StripQuotes(a + b) == StripQuotes(a) + StripQuotes(b)
  {
    if a == "" {
      assert a + b == b;
    } else {
      assert (a + b)[1..] == a[1..] + b;
      StripQuotesConcat(a[1..], b);
    }
  }

  lemma StripQuotesOfOne(c: char)
    ensures StripQuotes([c]) == if c == '\"' then "" else [c]
  {
    assert [c][1..] == "";
  }

  /** A text between two characters that do not belong to it. */
  predicate Inner(s: string, c: char) {
    s == "" || (s[0] != c && s[|s| - 1] != c)
  }

  lemma {:induction false} TrimLeftRun(c: char, n: nat, s: string)
    requires s == "" || s[0] != c
    ensures TrimLeft(Repeat(c, n) + s, c) == s
    decreases n
  {
    if n == 0 {
      assert Repeat(c, 0) + s == s;
    } else {
      assert (Repeat(c, n) + s)[0] == c && (Repeat(c, n) + s)[1..] == Repeat(c, n - 1) + s;
      TrimLeftRun(c, n - 1, s);
    }
  }

  lemma {:induction false} TrimRightRun(c: char, n: nat, s: string)
    requires s == "" || s[|s| - 1] != c
    ensures TrimRight(s + Repeat(c, n), c) == s
    decreases n
  {
    if n == 0 {
      assert s + Repeat(c, 0) == s;
    } else {
      var t := s + Repeat(c, n);
      assert t[|t| - 1] == c && t[..|t| - 1] == s + Repeat(c, n - 1);
      TrimRightRun(c, n - 1, s);
    }
  }

  /** A text without outer runs of the character is what trimming leaves of it within any runs. */
  lemma TrimRuns(c: char, l: nat, s: string, r: nat)
    requires Inner(s, c)
    ensures Trim(Repeat(c, l) + s + Repeat(c, r), c) == s
  {
    assert Repeat(c, l) + s + Repeat(c, r) == Repeat(c, l) + (s + Repeat(c, r));
    if s == "" {
      OnlyRuns(c, l, r);
    } else {
      TrimLeftRun(c, l, s + Repeat(c, r));
      TrimRightRun(c, r, s);
    }
  }

  lemma OnlyRuns(c: char, l: nat, r: nat)
    ensures Trim(Repeat(c, l) + "" + Repeat(c, r), c) == ""
  {
    assert Repeat(c, l) + "" + Repeat(c, r) == Repeat(c, l + r) + "";
    TrimLeftRun(c, l + r, "");
  }

  // ---------- Headers ----------

  function Quoted(s: string): string {
    "\"" + s + "\""
  }

  /**
   A rule's name and description are the texts between the quotes, its salience is the integer of the
   header; without a description or a salience they are empty and 0.
   */
  lemma HeaderReads(r: PRule, name: string, description: string)
    requires r.name == Quoted(name) && Inner(name, '\"')
    requires r.description.Some? ==> r.description.value == Quoted(description) && Inner(description, '\"')
    requires r.salience.Some? ==> InRange(r.salience.value.i)
    ensures var b := BuildRule(r);
            && b.ruleName == name
            && b.ruleDescription == (if r.description.Some? then description else "")
            && (r.salience == None ==> b.salience == 0)
            && (r.salience.Some? ==> Some(b.salience) == ParseInt(IntegerText(r.salience.value.i)))
    ensures ConstantValue(PAtDesc, HeaderOf(r)) == Str(StripQuotes(BuildRule(r).ruleDescription))
  {
    assert Repeat('\"', 1) == "\"";
    TrimRuns('\"', 1, name, 1);
    if r.description.Some? {
      TrimRuns('\"', 1, description, 1);
    }
    hide Trim, BuildStatements, ParseInt;
  }

  /** The decimal text of an integer. */
  function Written(n: int): string {
    if n < 0 then "-" + Decimal(-n) else Decimal(n)
  }

  /** A rule named by a 64-bit integer, within any spaces, has that integer as its @id. */
  lemma AtIdReads(h: Header, n: int, l: nat, r: nat)
    requires h.name == Repeat(' ', l) + Written(n) + Repeat(' ', r) && MIN_INT64 <= n <= MAX_INT64
    ensures ConstantValue(PAtId, h) == Int(Signed, n)
  {
    DecimalDigits(if n < 0 then -n else n);
    assert Inner(Written(n), ' ');
    TrimRuns(' ', l, Written(n), r);
    ParseIntRoundTrip(n);
    hide Trim, ParseInt;
  }

  /** A rule whose name holds anything but digits, signs and spaces has the @id 0. */
  lemma AtIdZero(h: Header, i: nat)
    requires i < |h.name| && !('0' <= h.name[i] <= '9') && h.name[i] != ' ' && h.name[i] != '+' && h.name[i] != '-'
    ensures ConstantValue(PAtId, h) == Int(Signed, 0)
  {
    var l, r := TrimIs(h.name, ' ');
    var t := Trim(h.name, ' ');
    assert l <= i < l + |t| && t[i - l] == h.name[i];
    var signed := t[0] == '-' || t[0] == '+';
    var digits := if signed then t[1..] else t;
    var k := if signed then i - l - 1 else i - l;
    assert digits[k] == h.name[i] && !IsDigit(digits[k]);
  }

  // ---------- What is rejected ----------

  /**
   Which literals are accepted, by their texts: integers of 64 bits, booleans in six spellings, reals
   that convert; and string keys with something beside quotes.
   */
  lemma LiteralsAccepted(k: PConstant, m: PMapVar)
    ensures match k
            case PInt(i) =>
              var n := if i.negative then -(DigitsValue(i.digits) as int) else DigitsValue(i.digits);
              AcceptedConstant(k) <==> MIN_INT64 <= n <= MAX_INT64
            case PBool(text) => AcceptedConstant(k) <==> text in ["true", "True", "TRUE", "false", "False", "FALSE"]
            case PReal(float) => AcceptedConstant(k) <==> float.Some?
            case _ => AcceptedConstant(k)
    ensures match m.key
            case KeyString(text) => AcceptedMapVar(m) <==> exists i :: 0 <= i < |text| && text[i] != '\"'
            case KeyInt(i) => AcceptedMapVar(m) <==> AcceptedConstant(PInt(i))
            case KeyVariable(_) => AcceptedMapVar(m)
  {
    if k.PInt? {
      IntegerRange(k.i);
    } else if k.PBool? {
      BooleanSpelling(k.word);
    }
    if m.key.KeyString? {
      OnlyQuotes(m.key.text);
    }
  }

  /** Trimming leaves nothing exactly of a text of nothing but the character. */
  lemma OnlyQuotes(s: string)
    ensures Trim(s, '\"') == "" <==> forall i | 0 <= i < |s| :: s[i] == '\"'
  {
    var l, r := TrimIs(s, '\"');
    var t := Trim(s, '\"');
    if t != "" {
      assert s[l] == t[0];
    }
  }

  /** The walk of a program reports no error exactly if all rules are acceptable and all names differ; a rule without a name is not. */
  lemma ProgramsAccepted(rules: seq<PRule>)
    ensures Run(PrimaryEvents(rules), START).errors == 0 <==>
            && (forall r | r in rules :: AcceptedRule(r))
            && (forall i, j | 0 <= i < j < |rules| :: BuildRule(rules[i]).ruleName != BuildRule(rules[j]).ruleName)
    ensures forall r: PRule | AcceptedRule(r) :: exists i :: 0 <= i < |r.name| && r.name[i] != '\"'
  {
    ParseProgram(rules);
    hide Run, PrimaryEvents, Trim;
    assert forall i | 0 <= i < |rules| :: BuildRule(rules[i]).ruleName == HeaderOf(rules[i]).name && rules[i] in rules;
    forall r: PRule | AcceptedRule(r) ensures exists i :: 0 <= i < |r.name| && r.name[i] != '\"' {
      OnlyQuotes(r.name);
    }
  }

  // ---------- Conc blocks ----------

  /** The assignments among the tasks of a block, in order. */
  function AssignmentsOf(tasks: seq<PTask>): seq<PAssignment> {
    if tasks == [] then []
    else (if tasks[0].TaskAssignment? then [tasks[0].assignment] else []) + AssignmentsOf(tasks[1..])
  }

  /** The calls of one kind among them, in order. */
  function CallsOf(tasks: seq<PTask>, kind: CallKind): seq<PCall> {
    if tasks == [] then []
    else (if tasks[0].TaskCall? && tasks[0].call.kind == kind then [tasks[0].call] else []) + CallsOf(tasks[1..], kind)
  }

  lemma {:induction false} AssignmentsConcat(a: seq<PTask>, b: seq<PTask>)
    ensures AssignmentsOf(a + b) == AssignmentsOf(a) + AssignmentsOf(b)
  {
    if a == [] {
      assert a + b == b;
    } else {
      assert (a + b)[1..] == a[1..] + b;
      AssignmentsConcat(a[1..], b);
      var head := if a[0].TaskAssignment? then [a[0].assignment] else [];
      var x, y := AssignmentsOf(a[1..]), AssignmentsOf(b);
      assert (a + b)[0] == a[0] && head + (x + y) == head + x + y;
    }
  }

  lemma {:induction false} CallsConcat(a: seq<PTask>, b: seq<PTask>, kind: CallKind)
    ensures CallsOf(a + b, kind) == CallsOf(a, kind) + CallsOf(b, kind)
  {
    if a == [] {
      assert a + b == b;
    } else {
      assert (a + b)[1..] == a[1..] + b;
      CallsConcat(a[1..], b, kind);
      var head := if a[0].TaskCall? && a[0].call.kind == kind then [a[0].call] else [];
      var x, y := CallsOf(a[1..], kind), CallsOf(b, kind);
      assert (a + b)[0] == a[0] && head + (x + y) == head + x + y;
    }
  }

  ghost predicate BuiltCalls(calls: seq<Call>, trees: seq<PCall>, h: Header) {
    |calls| == |trees| && forall i | 0 <= i < |trees| :: calls[i] == BuildCall(trees[i], h)
  }

  ghost predicate BuiltAssignments(list: seq<Assignment>, trees: seq<PAssignment>, h: Header) {
    |list| == |trees| && forall i | 0 <= i < |trees| :: list[i] == BuildAssignment(trees[i], h)
  }

  /** A block's record holds the records of exactly its tasks, each with its kind and in order. */
  lemma {:induction false} BlockHolds(tasks: seq<PTask>, h: Header)
    ensures var c := BuildConc(tasks, h);
            && BuiltAssignments(c.assignments, AssignmentsOf(tasks), h)
            && BuiltCalls(c.functionCalls, CallsOf(tasks, Function), h)
            && BuiltCalls(c.methodCalls, CallsOf(tasks, Method), h)
            && BuiltCalls(c.threeLevelCalls, CallsOf(tasks, ThreeLevel), h)
  {
    hide BuildCall, BuildAssignment;
    if tasks != [] {
      var front, last := tasks[..|tasks| - 1], tasks[|tasks| - 1];
      assert tasks == front + [last] && [last][1..] == [];
      BlockHolds(front, h);
      AssignmentsConcat(front, [last]);
      CallsConcat(front, [last], Function);
      CallsConcat(front, [last], Method);
      CallsConcat(front, [last], ThreeLevel);
    }
  }

  /** The machine's tasks from number `from` on are about to run these codes. */
  ghost predicate Begin(m: Machine, from: nat, codes: seq<Code>) {
    && from + |codes| <= |m.tasks|
    && forall i | 0 <= i < |codes| :: m.tasks[from + i] == Task(codes[i], [], false)
  }

  lemma ForkBegins(front: seq<Code>, codes: seq<Code>, back: seq<Code>, w: World)
    ensures Begin(Fork(front + codes + back, w), |front|, codes)
  {
    var all := front + codes + back;
    assert forall i | 0 <= i < |codes| :: all[|front| + i] == codes[i];
  }

  function CodesOfAssignments(list: seq<PAssignment>, h: Header): seq<Code> {
    seq(|list|, i requires 0 <= i < |list| => AssignmentCode(BuildAssignment(list[i], h)))
  }

  function CodesOfCalls(list: seq<PCall>, h: Header): seq<Code> {
    seq(|list|, i requires 0 <= i < |list| => CallCode(list[i].kind, BuildCall(list[i], h)))
  }

  lemma {:induction false} CallsOfKind(tasks: seq<PTask>, kind: CallKind)
    ensures forall i | 0 <= i < |CallsOf(tasks, kind)| :: CallsOf(tasks, kind)[i].kind == kind
  {
    if tasks != [] {
      CallsOfKind(tasks[1..], kind);
    }
  }

  lemma SameCallCodes(tasks: seq<PTask>, kind: CallKind, calls: seq<Call>, h: Header)
    requires BuiltCalls(calls, CallsOf(tasks, kind), h)
    ensures CallCodes(kind, calls) == CodesOfCalls(CallsOf(tasks, kind), h)
  {
    hide CallsOf, BuildCall, CallCode;
    CallsOfKind(tasks, kind);
  }

  /**
   A block forks one machine task for each of its tasks, which runs that task's code: the assignments
   first, then the calls by kind.
   */
  lemma BlockForks(tasks: seq<PTask>, h: Header, w: World)
    ensures var m := Fork(ConcCodes(BuildConc(tasks, h)), w);
            var a, f, e, t := AssignmentsOf(tasks), CallsOf(tasks, Function), CallsOf(tasks, Method), CallsOf(tasks, ThreeLevel);
            && m.w == w && m.errors == [] && |m.tasks| == |a| + |f| + |e| + |t|
            && Begin(m, 0, CodesOfAssignments(a, h)) && Begin(m, |a|, CodesOfCalls(f, h))
            && Begin(m, |a| + |f|, CodesOfCalls(e, h)) && Begin(m, |a| + |f| + |e|, CodesOfCalls(t, h))
  {
    hide BuildCall, BuildAssignment, AssignmentCode, CallCode, BuildConc, AssignmentsOf, CallsOf, Begin;
    BlockHolds(tasks, h);
    var c := BuildConc(tasks, h);
    var a, f, e, t :=
      CodesOfAssignments(AssignmentsOf(tasks), h), CodesOfCalls(CallsOf(tasks, Function), h), CodesOfCalls(CallsOf(tasks, Method), h),
      CodesOfCalls(CallsOf(tasks, ThreeLevel), h);
    SameCallCodes(tasks, Function, c.functionCalls, h);
    SameCallCodes(tasks, Method, c.methodCalls, h);
    SameCallCodes(tasks, ThreeLevel, c.threeLevelCalls, h);
    assert AssignmentCodes(c.assignments) == a;
    assert a + f + e + t == [] + a + (f + e + t) == a + f + (e + t) == (a + f) + e + t == (a + f + e) + t + [];
    ForkBegins([], a, f + e + t, w);
    ForkBegins(a, f, e + t, w);
    ForkBegins(a + f, e, t, w);
    ForkBegins(a + f + e, t, [], w);
  }
}
