/** main.py: str2bool, the construction of the value tuple from a line, and
    the `while 1` ingestion loop with its `finally` cleanup. The loop is
    specified by Iteration and Run, which describe on values what one
    iteration and a whole run do, together with the calls they make as a
    log of events; Iterate and RunLoop are the imperative loop over the two
    objects, proved to follow them. */
module Bridge {
  import opened Common
  import Database
  import Serial

  // ---------------------------------------------------------------------
  // str2bool

  const TrueTokens: seq<string> :=
    ["true", "1", "t", "y", "yes", "yeah", "yup", "ja", "jawoll", "definitiv"]

  /** str.lower() on ASCII letters; every other character is kept. */
  function LowerChar(c: char): char {
    if 'A' <= c <= 'Z' then (c as int + 32) as char else c
  }

  function Lower(s: string): string {
    seq(|s|, i requires 0 <= i < |s| => LowerChar(s[i]))
  }

  /** str2bool; the tokens have one to nine characters, so no longer or
      empty string is true. */
  function Str2Bool(value: string): (b: bool)
    ensures b ==> 1 <= |value| <= 9
  {
    Lower(value) in TrueTokens
  }

  /** The reference definition: equal up to the case of ASCII letters. */
  predicate EqualsIgnoringCase(a: string, b: string) {
    |a| == |b| && forall i :: 0 <= i < |a| ==> LowerChar(a[i]) == LowerChar(b[i])
  }

  predicate NoUpper(s: string) {
    forall i :: 0 <= i < |s| ==> !('A' <= s[i] <= 'Z')
  }

  lemma LowerOfNoUpper(s: string)
    requires NoUpper(s)
    ensures Lower(s) == s
  {
  }

  /** str2bool holds exactly of the strings that equal one of the ten tokens
      up to case, and of no other string. */
  lemma Str2BoolMatchesTokenIgnoringCase(value: string)
    ensures Str2Bool(value) <==> exists t :: t in TrueTokens && EqualsIgnoringCase(value, t)
  {
    assert NoUpper("true") && NoUpper("1") && NoUpper("t") && NoUpper("y") && NoUpper("yes");
    assert NoUpper("yeah") && NoUpper("yup") && NoUpper("ja") && NoUpper("jawoll");
    assert NoUpper("definitiv");
    forall t | t in TrueTokens
      ensures Lower(t) == t
    {
      LowerOfNoUpper(t);
    }
    if Str2Bool(value) {
      var t := Lower(value);
      assert EqualsIgnoringCase(value, t);
    }
    if t :| t in TrueTokens && EqualsIgnoringCase(value, t) {
      assert Lower(t) == t;
      assert Lower(value) == t by {
        forall i | 0 <= i < |t|
          ensures Lower(value)[i] == t[i]
        {
          assert Lower(t)[i] == LowerChar(t[i]);
        }
      }
    }
  }

  /** Changing the case of ASCII letters does not change str2bool. */
  lemma Str2BoolIgnoresCase(v: string, w: string)
    requires EqualsIgnoringCase(v, w)
    ensures Str2Bool(v) == Str2Bool(w)
  {
    assert Lower(v) == Lower(w) by {
      forall i | 0 <= i < |v|
        ensures Lower(v)[i] == Lower(w)[i]
      {
      }
    }
  }

  // ---------------------------------------------------------------------
  // The value tuple of main.py:83-90

  /** float() and int() of a one-character string, as the line gives them;
      None where Python raises ValueError. */
  datatype Converters = Converters(toFloat: string -> Option<real>, toInt: string -> Option<int>)

  datatype FieldKind = TextField | FloatField | IntField

  /** The six elements of the tuple: line[0], float(line[1]), float(line[2]),
      int(line[3]), int(line[4]), int(line[5]). */
  const FieldKinds: seq<FieldKind> := [TextField, FloatField, FloatField, IntField, IntField, IntField]

  /** One tuple element from the character line[k]. */
  function ConvertChar(c: char, kind: FieldKind, conv: Converters): (r: Completion<SqlValue>)
    ensures kind == TextField ==> r == Returned(SqlText([c]))
    ensures kind == FloatField ==> (r.Returned? <==> conv.toFloat([c]).Some?)
    ensures kind == IntField ==> (r.Returned? <==> conv.toInt([c]).Some?)
    ensures r.Returned? ==> (kind == FloatField ==> r.value.SqlFloat?) && (kind == IntField ==> r.value.SqlInt?)
    ensures r.Raised? ==> r.fault == ValueError
  {
    match kind
    case TextField => Returned(SqlText([c]))
    case FloatField =>
      (match conv.toFloat([c])
       case Some(x) => Returned(SqlFloat(x))
       case None => Raised(ValueError))
    case IntField =>
      (match conv.toInt([c])
       case Some(n) => Returned(SqlInt(n))
       case None => Raised(ValueError))
  }

  /** The elements k.. of the tuple, evaluated left to right as Python does:
      the first index past the end or failed conversion raises. */
  function BuildFrom(s: string, k: nat, conv: Converters): (r: Completion<seq<SqlValue>>)
    requires k <= |FieldKinds| && k <= |s|
    ensures r.Returned? ==> |r.value| == |FieldKinds| - k
    ensures r.Raised? ==> r.fault == IndexError || r.fault == ValueError
    decreases |FieldKinds| - k
  {
    if k == |FieldKinds| then Returned([])
    else if k == |s| then Raised(IndexError)
    else match ConvertChar(s[k], FieldKinds[k], conv)
      case Raised(e) => Raised(e)
      case Returned(v) =>
        match BuildFrom(s, k + 1, conv)
        case Raised(e) => Raised(e)
        case Returned(vs) => Returned([v] + vs)
  }

  /** BuildFrom succeeds exactly when the line reaches past the last field
      and every conversion from k on succeeds; element j - k is then the
      conversion of character j. */
  lemma {:induction false} BuildFromConverts(s: string, k: nat, conv: Converters)
    requires k <= |FieldKinds| && k <= |s|
    ensures BuildFrom(s, k, conv).Returned? <==>
      |FieldKinds| <= |s| && forall j :: k <= j < |FieldKinds| ==> ConvertChar(s[j], FieldKinds[j], conv).Returned?
    ensures var r := BuildFrom(s, k, conv);
      r.Returned? ==> forall j :: k <= j < |FieldKinds| ==> r.value[j - k] == ConvertChar(s[j], FieldKinds[j], conv).value
    decreases |FieldKinds| - k
  {
    if k < |FieldKinds| && k < |s| {
      BuildFromConverts(s, k + 1, conv);
      var r := BuildFrom(s, k, conv);
      if r.Returned? {
        var rest := BuildFrom(s, k + 1, conv).value;
        assert r.value == [ConvertChar(s[k], FieldKinds[k], conv).value] + rest;
        forall j | k < j < |FieldKinds|
          ensures r.value[j - k] == ConvertChar(s[j], FieldKinds[j], conv).value
        {
          assert r.value[j - k] == rest[j - (k + 1)];
        }
      }
    }
  }

  /** The tuple `values` built from what receiver.read() returned. The line
      is indexed character by character; it is not split at ';'. */
  function BuildValues(line: Option<string>, conv: Converters): (r: Completion<seq<SqlValue>>)
    ensures line.None? ==> r == Raised(TypeError)
    ensures r.Returned? ==> line.Some? && |r.value| == |FieldKinds|
    ensures r.Raised? ==> r.fault == TypeError || r.fault == IndexError || r.fault == ValueError
  {
    match line
    case None => Raised(TypeError)
    case Some(s) => BuildFrom(s, 0, conv)
  }

  /** A line gives a tuple exactly when it has six characters or more and
      all six conversions succeed; element j is the conversion of line[j]. */
  lemma BuildValuesConverts(line: Option<string>, conv: Converters)
    ensures line.Some? ==> (BuildValues(line, conv).Returned? <==>
      |FieldKinds| <= |line.value| &&
      forall j :: 0 <= j < |FieldKinds| ==> ConvertChar(line.value[j], FieldKinds[j], conv).Returned?)
    ensures var r := BuildValues(line, conv);
      r.Returned? ==> forall j :: 0 <= j < |FieldKinds| ==> r.value[j] == ConvertChar(line.value[j], FieldKinds[j], conv).value
  {
    if line.Some? {
      BuildFromConverts(line.value, 0, conv);
    }
  }

  // ---------------------------------------------------------------------
  // The loop

  /** The outcomes one iteration may consume. */
  datatype IterationInputs = IterationInputs(ensure: Database.EnsureOutcomes,
                                             read: Serial.ReadOutcome,
                                             insert: Database.InsertOutcomes)

  /** The calls the loop makes, with what they returned. */
  datatype Event =
    | HealthCheck(state: ConnectionState, changed: bool)
    | Read(line: Completion<Option<string>>)
    | Insert(values: seq<SqlValue>, result: Completion<bool>)
    | Close

  /** One iteration: the database fields after it, its calls, and whether an
      exception left the loop. */
  datatype Step = Step(fields: Database.DbFields, events: seq<Event>, raised: bool)

  /** A whole run: the database fields at the end and every call made. */
  datatype Outcome = Outcome(fields: Database.DbFields, events: seq<Event>)

  /** One pass through the body of `while 1`. */
  function Iteration(f: Database.DbFields, portOpen: bool, conv: Converters, e: IterationInputs): (r: Step)
    ensures 1 <= |r.events| <= 3 && r.events[0].HealthCheck? && r.events[0].state != Never
  {
    var h := Database.Ensure(f, e.ensure);
    var check := HealthCheck(h.state, h.changed);
    if h.changed then Step(h.fields, [check], false)
    else
      var line := Serial.ReadSpec(portOpen, e.read);
      if line.Raised? then Step(h.fields, [check, Read(line)], true)
      else match BuildValues(line.value, conv)
        case Raised(_) => Step(h.fields, [check, Read(line)], true)
        case Returned(v) =>
          var ins := Database.Insert(h.fields, v, e.insert);
          Step(ins.fields, [check, Read(line), Insert(v, ins.result)], ins.result.Raised?)
  }

  /** The loop over a sequence of iterations, ending when an exception leaves
      the body or, once the inputs are used up, by the operator's interrupt;
      either way the `finally` clause closes the receiver. */
  function Run(f: Database.DbFields, portOpen: bool, conv: Converters, inputs: seq<IterationInputs>): (r: Outcome)
    ensures r.events != [] && r.events[|r.events| - 1].Close?
    decreases |inputs|, 1
  {
    if inputs == [] then Outcome(f, [Close]) else Pass(f, portOpen, conv, inputs)
  }

  /** The first iteration of a run and what follows it. */
  function Pass(f: Database.DbFields, portOpen: bool, conv: Converters, inputs: seq<IterationInputs>): (r: Outcome)
    requires inputs != []
    decreases |inputs|, 0
  {
    var s := Iteration(f, portOpen, conv, inputs[0]);
    if s.raised then Outcome(s.fields, s.events + [Close])
    else
      var rest := Run(s.fields, portOpen, conv, inputs[1..]);
      Outcome(rest.fields, s.events + rest.events)
  }

  /** Run after one iteration whose outcome is s. */
  lemma RunAfterStep(f: Database.DbFields, portOpen: bool, conv: Converters,
                     inputs: seq<IterationInputs>, s: Step)
    requires inputs != [] && s == Iteration(f, portOpen, conv, inputs[0])
    ensures s.raised ==> Run(f, portOpen, conv, inputs) == Outcome(s.fields, s.events + [Close])
    ensures !s.raised ==> (Run(f, portOpen, conv, inputs) ==
      var rest := Run(s.fields, portOpen, conv, inputs[1..]); Outcome(rest.fields, s.events + rest.events))
  {
    assert Run(f, portOpen, conv, inputs) == Pass(f, portOpen, conv, inputs);
  }

  /** The first iterations of a run, taken from the front: where the loop
      stands after them, or where it left once one of them raised. */
  ghost function Prefix(f: Database.DbFields, portOpen: bool, conv: Converters,
                        inputs: seq<IterationInputs>): Step
    decreases |inputs|, 1
  {
    if inputs == [] then Step(f, [], false) else Extend(f, portOpen, conv, inputs)
  }

  /** The prefix of all but the last input, followed by the last iteration
      unless the loop had already left. */
  ghost function Extend(f: Database.DbFields, portOpen: bool, conv: Converters,
                        inputs: seq<IterationInputs>): Step
    requires inputs != []
    decreases |inputs|, 0
  {
    var s := Prefix(f, portOpen, conv, inputs[..|inputs| - 1]);
    if s.raised then s
    else
      var t := Iteration(s.fields, portOpen, conv, inputs[|inputs| - 1]);
      Step(t.fields, s.events + t.events, t.raised)
  }

  /** One more iteration extends a prefix that has not raised. */
  lemma PrefixExtends(f: Database.DbFields, portOpen: bool, conv: Converters,
                      inputs: seq<IterationInputs>, i: nat)
    requires i < |inputs| && !Prefix(f, portOpen, conv, inputs[..i]).raised
    ensures var s := Prefix(f, portOpen, conv, inputs[..i]);
      var t := Iteration(s.fields, portOpen, conv, inputs[i]);
      Prefix(f, portOpen, conv, inputs[..i + 1]) == Step(t.fields, s.events + t.events, t.raised)
  {
    assert inputs[..i + 1][..i] == inputs[..i] && inputs[..i + 1][i] == inputs[i];
    assert Prefix(f, portOpen, conv, inputs[..i + 1]) == Extend(f, portOpen, conv, inputs[..i + 1]);
  }

  /** Regrouping the events of a run around one more iteration t. */
  lemma Rejoin(q: seq<Event>, t: Step, whole: Outcome, o: Outcome, rest: Outcome)
    requires whole == Outcome(o.fields, q + o.events)
    requires t.raised ==> o == Outcome(t.fields, t.events + [Close])
    requires !t.raised ==> o == Outcome(rest.fields, t.events + rest.events)
    ensures t.raised ==> whole == Outcome(t.fields, (q + t.events) + [Close])
    ensures !t.raised ==> whole == Outcome(rest.fields, (q + t.events) + rest.events)
  {
    if t.raised {
      assert q + (t.events + [Close]) == (q + t.events) + [Close];
    } else {
      assert q + (t.events + rest.events) == (q + t.events) + rest.events;
    }
  }

  /** A run that stands at q before input k goes on through iteration k. */
  lemma ResumeAfterStep(f: Database.DbFields, portOpen: bool, conv: Converters,
                        inputs: seq<IterationInputs>, k: nat, q: Step)
    requires k < |inputs| && !q.raised
    requires Run(f, portOpen, conv, inputs) ==
      var rest := Run(q.fields, portOpen, conv, inputs[k..]); Outcome(rest.fields, q.events + rest.events)
    ensures var t := Iteration(q.fields, portOpen, conv, inputs[k]);
      && (t.raised ==> Run(f, portOpen, conv, inputs) == Outcome(t.fields, (q.events + t.events) + [Close]))
      && (!t.raised ==> (Run(f, portOpen, conv, inputs) ==
            var rest := Run(t.fields, portOpen, conv, inputs[k + 1..]);
            Outcome(rest.fields, (q.events + t.events) + rest.events)))
  {
    var t := Iteration(q.fields, portOpen, conv, inputs[k]);
    assert inputs[k..][0] == inputs[k] && inputs[k..][1..] == inputs[k + 1..];
    RunAfterStep(q.fields, portOpen, conv, inputs[k..], t);
    Rejoin(q.events, t, Run(f, portOpen, conv, inputs), Run(q.fields, portOpen, conv, inputs[k..]),
           Run(t.fields, portOpen, conv, inputs[k + 1..]));
  }

  /** Run is the prefix of its first i iterations followed by the rest. */
  lemma {:induction false} RunAfterPrefix(f: Database.DbFields, portOpen: bool, conv: Converters,
                                          inputs: seq<IterationInputs>, i: nat)
    requires i <= |inputs|
    ensures var s := Prefix(f, portOpen, conv, inputs[..i]);
      && (s.raised ==> Run(f, portOpen, conv, inputs) == Outcome(s.fields, s.events + [Close]))
      && (!s.raised ==> (Run(f, portOpen, conv, inputs) ==
            var rest := Run(s.fields, portOpen, conv, inputs[i..]);
            Outcome(rest.fields, s.events + rest.events)))
  {
    if i == 0 {
      assert inputs[..0] == [] && inputs[0..] == inputs;
    } else {
      RunAfterPrefix(f, portOpen, conv, inputs, i - 1);
      var q := Prefix(f, portOpen, conv, inputs[..i - 1]);
      if q.raised {
        assert inputs[..i][..i - 1] == inputs[..i - 1];
        assert Prefix(f, portOpen, conv, inputs[..i]) == Extend(f, portOpen, conv, inputs[..i]);
      } else {
        PrefixExtends(f, portOpen, conv, inputs, i - 1);
        ResumeAfterStep(f, portOpen, conv, inputs, i - 1, q);
      }
    }
  }

  /** The body of `while 1`; the early return is the `continue`. */
  method Iterate(db: Database.MySql, receiver: Serial.SerialReceiver, conv: Converters, e: IterationInputs)
    returns (raised: bool, ghost events: seq<Event>)
    requires db.Valid() && receiver.Valid()
    modifies db
    ensures db.Valid()
    ensures Iteration(old(db.Fields()), receiver.ser.isOpen, conv, e) == Step(db.Fields(), events, raised)
  {
    var state, changed := db.EnsureDatabaseConnection(e.ensure);
    events := [HealthCheck(state, changed)];
    if changed {
      raised := false;
      return;
    }
    var line := receiver.Read(e.read);
    events := events + [Read(line)];
    if line.Raised? {
      raised := true;
      return;
    }
    var values := BuildValues(line.value, conv);
    if values.Raised? {
      raised := true;
      return;
    }
    var result := db.InsertDataset(values.value, e.insert);
    events := events + [Insert(values.value, result)];
    raised := result.Raised?;
  }

  /** The `try: while 1: ... finally: receiver.close()` of main.py. */
  method RunLoop(db: Database.MySql, receiver: Serial.SerialReceiver, conv: Converters,
                 inputs: seq<IterationInputs>)
    returns (ghost events: seq<Event>)
    requires db.Valid() && receiver.Valid()
    modifies db, receiver.ser
    ensures db.Valid() && receiver.Valid() && !receiver.ser.isOpen
    ensures Run(old(db.Fields()), old(receiver.ser.isOpen), conv, inputs) == Outcome(db.Fields(), events)
  {
    ghost var f0 := db.Fields();
    ghost var portOpen := receiver.ser.isOpen;
    var i := 0;
    var raised := false;
    events := [];
    while i < |inputs|
      invariant 0 <= i <= |inputs|
      invariant db.Valid() && receiver.Valid() && receiver.ser.isOpen == portOpen
      invariant Prefix(f0, portOpen, conv, inputs[..i]) == Step(db.Fields(), events, false)
      decreases |inputs| - i
    {
      var r, ev := Iterate(db, receiver, conv, inputs[i]);
      PrefixExtends(f0, portOpen, conv, inputs, i);
      events := events + ev;
      i := i + 1;
      if r {
        // the exception leaves `while 1` for the `finally` clause
        raised := true;
        break;
      }
    }
    assert Prefix(f0, portOpen, conv, inputs[..i]) == Step(db.Fields(), events, raised);
    RunAfterPrefix(f0, portOpen, conv, inputs, i);
    if !raised {
      assert inputs[i..] == [];
    }
    receiver.Close();
    events := events + [Close];
  }
}
