/**
 The field-trial string parser (api/field_trials.cc).

 A field-trial string is a sequence of fields printed as "key/value/". `Printed` is that printer;
 the parser's contract is stated against it, and the pairs it finds are shown to be the only ones.
 */
module FieldTrials {
  import opened Wrappers

  datatype Field = Field(key: string, value: string)

  /** The RTC_CHECK that stops the parser. */
  datatype Fault =
    | MissingKeySeparator
    | EmptyKey
    | MissingValue
    | MissingTerminator
    | EmptyValue

  predicate WellFormed(f: Field) {
    f.key != "" && f.value != "" && '/' !in f.key && '/' !in f.value
  }

  predicate AllWellFormed(fields: seq<Field>) {
    forall i :: 0 <= i < |fields| ==> WellFormed(fields[i])
  }

  function PrintedField(f: Field): string {
    f.key + "/" + f.value + "/"
  }

  function Printed(fields: seq<Field>): string {
    if fields == [] then "" else PrintedField(fields[0]) + Printed(fields[1..])
  }

  /** The map in which the first value given for a key is the one that counts. */
  function FirstWins(fields: seq<Field>): map<string, string> {
    if fields == [] then map[] else FirstWins(fields[1..])[fields[0].key := fields[0].value]
  }

  /** What is wrong with `rest` as the beginning of further fields: None if it is empty or starts
      with a printed well-formed field. */
  function FaultAtStart(rest: string): Option<Fault> {
    if rest == "" then None
    else if '/' !in rest then Some(MissingKeySeparator)
    else if rest[0] == '/' then Some(EmptyKey)
    else
      var afterKey := AfterSlash(rest);
      if afterKey == "" then Some(MissingValue)
      else if '/' !in afterKey then Some(MissingTerminator)
      else if afterKey[0] == '/' then Some(EmptyValue)
      else None
  }

  function AfterSlash(s: string): string {
    if s == "" then "" else if s[0] == '/' then s[1..] else AfterSlash(s[1..])
  }

  lemma {:induction false} AfterSlashSkips(word: string, rest: string)
    requires '/' !in word
    ensures AfterSlash(word + "/" + rest) == rest
  {
    var s := word + "/" + rest;
    if word == "" {
      assert s[1..] == rest;
    } else {
      assert s[1..] == word[1..] + "/" + rest;
      AfterSlashSkips(word[1..], rest);
    }
  }

  /** A slash-free word in front of a slash is determined by the string. */
  lemma SplitAtSlashIsUnique(w1: string, r1: string, w2: string, r2: string)
    requires '/' !in w1 && '/' !in w2
    requires w1 + "/" + r1 == w2 + "/" + r2
    ensures w1 == w2 && r1 == r2
  {
    var s := w1 + "/" + r1;
    assert s[|w1|] == '/' && s[|w2|] == '/';
    assert forall i :: 0 <= i < |w1| ==> s[i] == w1[i];
    assert forall i :: 0 <= i < |w2| ==> s[i] == w2[i];
    assert |w1| == |w2|;
    assert w1 == s[..|w1|] && w2 == s[..|w2|];
    assert r1 == s[|w1| + 1..] && r2 == s[|w2| + 1..];
  }

  lemma FieldSplitIsUnique(f: Field, r1: string, g: Field, r2: string)
    requires WellFormed(f) && WellFormed(g)
    requires PrintedField(f) + r1 == PrintedField(g) + r2
    ensures f == g && r1 == r2
  {
    var s1, s2 := f.value + "/" + r1, g.value + "/" + r2;
    assert PrintedField(f) + r1 == f.key + "/" + s1;
    assert PrintedField(g) + r2 == g.key + "/" + s2;
    SplitAtSlashIsUnique(f.key, s1, g.key, s2);
    SplitAtSlashIsUnique(f.value, r1, g.value, r2);
  }

  /** Printing loses nothing: well-formed field sequences with the same printed form are equal. */
  lemma {:induction false} PrintedIsInjective(a: seq<Field>, b: seq<Field>)
    requires AllWellFormed(a) && AllWellFormed(b) && Printed(a) == Printed(b)
    ensures a == b
  {
    if a == [] || b == [] {
    } else {
      FieldSplitIsUnique(a[0], Printed(a[1..]), b[0], Printed(b[1..]));
      PrintedIsInjective(a[1..], b[1..]);
      assert a == [a[0]] + a[1..] && b == [b[0]] + b[1..];
    }
  }

  lemma {:induction false} PrintedAppend(a: seq<Field>, f: Field)
    ensures Printed(a + [f]) == Printed(a) + PrintedField(f)
  {
    if a == [] {
      assert a + [f] == [f] && Printed([f][1..]) == "";
    } else {
      assert (a + [f])[0] == a[0] && (a + [f])[1..] == a[1..] + [f];
      PrintedAppend(a[1..], f);
    }
  }

  lemma {:induction false} FirstWinsAppend(a: seq<Field>, f: Field)
    ensures FirstWins(a + [f])
         == if f.key in FirstWins(a) then FirstWins(a) else FirstWins(a)[f.key := f.value]
  {
    if a == [] {
    } else {
      assert (a + [f])[0] == a[0] && (a + [f])[1..] == a[1..] + [f];
      FirstWinsAppend(a[1..], f);
    }
  }

  lemma FaultAfterField(f: Field, rest: string)
    requires WellFormed(f)
    ensures FaultAtStart(PrintedField(f) + rest) == None
  {
    var s := PrintedField(f) + rest;
    var afterKey := f.value + "/" + rest;
    assert s == f.key + "/" + afterKey;
    assert s[0] == f.key[0] && s[|f.key|] == '/';
    AfterSlashSkips(f.key, afterKey);
    assert afterKey[0] == f.value[0] && afterKey[|f.value|] == '/';
  }

  /** A printed continuation has no fault at its start. */
  lemma PrintedHasNoFault(fields: seq<Field>)
    requires AllWellFormed(fields)
    ensures FaultAtStart(Printed(fields)) == None
  {
    if fields == [] {
    } else {
      FaultAfterField(fields[0], Printed(fields[1..]));
    }
  }

  /** What parsed so far is a prefix of any decomposition of the whole string. */
  lemma {:induction false} PrefixOfDecomposition(done: seq<Field>, rest: string, all: seq<Field>)
    requires AllWellFormed(done) && AllWellFormed(all)
    requires Printed(done) + rest == Printed(all)
    ensures |done| <= |all| && done == all[..|done|] && rest == Printed(all[|done|..])
  {
    if done == [] {
      assert Printed(done) + rest == rest && all[0..] == all;
    } else {
      assert all != [];
      var r1, r2 := Printed(done[1..]) + rest, Printed(all[1..]);
      assert Printed(done) + rest == PrintedField(done[0]) + r1;
      hide Printed, PrintedField, WellFormed;
      FieldSplitIsUnique(done[0], r1, all[0], r2);
      PrefixOfDecomposition(done[1..], rest, all[1..]);
      assert done == [done[0]] + done[1..] && all == [all[0]] + all[1..];
      assert all[1..][|done| - 1..] == all[|done|..];
    }
  }

  /** A string with a fault after some well-formed fields is no printed form at all. */
  lemma FaultyIsNotPrinted(s: string, done: seq<Field>, rest: string)
    requires AllWellFormed(done) && s == Printed(done) + rest && FaultAtStart(rest).Some?
    ensures forall all :: AllWellFormed(all) ==> Printed(all) != s
  {
    forall all | AllWellFormed(all) && Printed(all) == s
      ensures false
    {
      PrefixOfDecomposition(done, rest, all);
      PrintedHasNoFault(all[|done|..]);
    }
  }

  /** string::find for '/': the index of the first one at or after `from`, if any. */
  method FindSlash(s: string, from: nat) returns (pos: Option<nat>)
    requires from <= |s|
    ensures pos.None? ==> '/' !in s[from..]
    ensures pos.Some? ==> from <= pos.value < |s| && s[pos.value] == '/' && '/' !in s[from..pos.value]
  {
    var i := from;
    while i < |s|
      invariant from <= i <= |s| && '/' !in s[from..i]
    {
      if s[i] == '/' {
        return Some(i);
      }
      assert s[from..i + 1] == s[from..i] + [s[i]];
      i := i + 1;
    }
    return None;
  }

  /** The string is the printed form of `fields`, or prints some fields and then has `fault`. */
  ghost predicate Explains(s: string, fields: seq<Field>, fault: Option<Fault>) {
    && AllWellFormed(fields)
    && Printed(fields) <= s
    && (fault.None? ==> s == Printed(fields))
    && (fault.Some? ==> FaultAtStart(s[|Printed(fields)|..]) == fault)
  }

  /** Every string has exactly one explanation. */
  lemma ExplanationIsUnique(s: string, f1: seq<Field>, e1: Option<Fault>, f2: seq<Field>, e2: Option<Fault>)
    requires Explains(s, f1, e1) && Explains(s, f2, e2)
    ensures f1 == f2 && e1 == e2
  {
    if e1.None? && e2.None? {
      PrintedIsInjective(f1, f2);
    } else {
      var r1, r2 := s[|Printed(f1)|..], s[|Printed(f2)|..];
      assert s == Printed(f1) + r1 && s == Printed(f2) + r2;
      if e1.None? { FaultyIsNotPrinted(s, f2, r2); }
      if e2.None? { FaultyIsNotPrinted(s, f1, r1); }
      SameStoppingPoint(f1, r1, f2, r2);
    }
  }

  lemma {:induction false} SameStoppingPoint(f1: seq<Field>, r1: string, f2: seq<Field>, r2: string)
    requires AllWellFormed(f1) && AllWellFormed(f2)
    requires Printed(f1) + r1 == Printed(f2) + r2
    requires FaultAtStart(r1).Some? && FaultAtStart(r2).Some?
    ensures f1 == f2 && r1 == r2
  {
    if f1 == [] && f2 == [] {
      assert Printed(f1) + r1 == r1 && Printed(f2) + r2 == r2;
    } else if f1 == [] {
      assert Printed(f1) + r1 == r1;
      assert Printed(f2) + r2 == PrintedField(f2[0]) + (Printed(f2[1..]) + r2);
      FaultAfterField(f2[0], Printed(f2[1..]) + r2);
    } else if f2 == [] {
      assert Printed(f2) + r2 == r2;
      assert Printed(f1) + r1 == PrintedField(f1[0]) + (Printed(f1[1..]) + r1);
      FaultAfterField(f1[0], Printed(f1[1..]) + r1);
    } else {
      var s1, s2 := Printed(f1[1..]) + r1, Printed(f2[1..]) + r2;
      assert Printed(f1) + r1 == PrintedField(f1[0]) + s1;
      assert Printed(f2) + r2 == PrintedField(f2[0]) + s2;
      FieldSplitIsUnique(f1[0], s1, f2[0], s2);
      SameStoppingPoint(f1[1..], r1, f2[1..], r2);
      assert f1 == [f1[0]] + f1[1..] && f2 == [f2[0]] + f2[1..];
    }
  }

  /** The body of the parser's loop: one field, starting at `fieldStart`. */
  method ReadField(s: string, fieldStart: nat) returns (r: Result<Field, Fault>, next: nat)
    requires fieldStart < |s|
    ensures r.Ok? ==> WellFormed(r.value) && fieldStart < next <= |s|
                      && s[fieldStart..] == PrintedField(r.value) + s[next..]
    ensures r.Err? ==> FaultAtStart(s[fieldStart..]) == Some(r.error)
  {
    hide AfterSlash;
    ghost var rest := s[fieldStart..];
    next := fieldStart;
    var separator := FindSlash(s, fieldStart);
    if separator.None? {
      return Err(MissingKeySeparator), next;
    }
    if separator.value <= fieldStart {
      assert rest[0] == '/';
      return Err(EmptyKey), next;
    }
    var key := s[fieldStart..separator.value];
    next := separator.value + 1;
    ghost var afterKey := s[next..];
    assert rest == key + "/" + afterKey;
    AfterSlashSkips(key, afterKey);
    assert rest[|key|] == '/' && rest[0] == key[0];
    if next >= |s| {
      return Err(MissingValue), next;
    }
    separator := FindSlash(s, next);
    if separator.None? {
      return Err(MissingTerminator), next;
    }
    if separator.value <= next {
      assert afterKey[0] == '/';
      return Err(EmptyValue), next;
    }
    var value := s[next..separator.value];
    next := separator.value + 1;
    assert afterKey == value + "/" + s[next..];
    return Ok(Field(key, value)), next;
  }

  method InsertIntoMap(s: string) returns (r: Result<map<string, string>, Fault>)
    ensures r.Ok? ==> exists fields :: Explains(s, fields, None) && r.value == FirstWins(fields)
    ensures r.Err? ==> exists fields :: Explains(s, fields, Some(r.error))
    ensures r.Ok? <==> exists fields :: AllWellFormed(fields) && Printed(fields) == s
  {
    var fieldStart := 0;
    var keyValueMap := map[];
    ghost var fields: seq<Field> := [];
    assert s == Printed(fields) + s[fieldStart..];
    assert keyValueMap == FirstWins(fields);
    hide Printed, PrintedField, FaultAtStart, AllWellFormed, FirstWins, Explains;
    while fieldStart < |s|
      invariant 0 <= fieldStart <= |s|
      invariant AllWellFormed(fields) && s == Printed(fields) + s[fieldStart..]
      invariant keyValueMap == FirstWins(fields)
    {
      var field, next := ReadField(s, fieldStart);
      if field.Err? {
        StoppedByFault(s, fields, fieldStart, field.error);
        return Err(field.error);
      }
      // The first value given for a key is the one that is stored.
      if field.value.key !in keyValueMap {
        keyValueMap := keyValueMap[field.value.key := field.value.value];
      }
      FirstWinsAppend(fields, field.value);
      OneMoreField(s, fields, field.value, fieldStart, next);
      fields := fields + [field.value];
      fieldStart := next;
    }
    // The check after the loop cannot fail: the loop stops neither short of the end nor beyond it.
    assert fieldStart == |s|;
    StoppedAtEnd(s, fields);
    return Ok(keyValueMap);
  }

  lemma StoppedByFault(s: string, fields: seq<Field>, fieldStart: nat, fault: Fault)
    requires fieldStart <= |s| && AllWellFormed(fields) && s == Printed(fields) + s[fieldStart..]
    requires FaultAtStart(s[fieldStart..]) == Some(fault)
    ensures Explains(s, fields, Some(fault))
    ensures forall all :: AllWellFormed(all) ==> Printed(all) != s
  {
    assert s[|Printed(fields)|..] == s[fieldStart..];
    FaultyIsNotPrinted(s, fields, s[fieldStart..]);
  }

  lemma OneMoreField(s: string, fields: seq<Field>, field: Field, fieldStart: nat, next: nat)
    requires fieldStart <= next <= |s| && AllWellFormed(fields) && WellFormed(field)
    requires s == Printed(fields) + s[fieldStart..] && s[fieldStart..] == PrintedField(field) + s[next..]
    ensures AllWellFormed(fields + [field]) && s == Printed(fields + [field]) + s[next..]
  {
    hide Printed, PrintedField, WellFormed;
    PrintedAppend(fields, field);
    var before, one, rest := Printed(fields), PrintedField(field), s[next..];
    assert before + (one + rest) == before + one + rest;
  }

  lemma StoppedAtEnd(s: string, fields: seq<Field>)
    requires AllWellFormed(fields) && s == Printed(fields) + s[|s|..]
    ensures Explains(s, fields, None) && Printed(fields) == s
  {
  }

  /** Printing, then parsing: the parser of any well-formed sequence's printed form yields its
      first-wins map, and it accepts nothing else. */
  method ParsePrinted(fields: seq<Field>) returns (r: Result<map<string, string>, Fault>)
    requires AllWellFormed(fields)
    ensures r == Ok(FirstWins(fields))
  {
    r := InsertIntoMap(Printed(fields));
    assert Explains(Printed(fields), fields, None);
    ghost var found :| Explains(Printed(fields), found, None) && r.value == FirstWins(found);
    ExplanationIsUnique(Printed(fields), fields, None, found, None);
  }

  /** A key and a value with their slashes are one field, the key first. */
  method ParseOne(key: string, value: string) returns (r: Result<map<string, string>, Fault>)
    requires key != "" && value != "" && '/' !in key && '/' !in value
    ensures r == Ok(map[key := value])
  {
    var fields := [Field(key, value)];
    assert Printed(fields) == key + "/" + value + "/" by {
      assert fields[1..] == [];
    }
    r := ParsePrinted(fields);
    assert FirstWins(fields) == map[key := value] by {
      assert fields[1..] == [];
    }
  }

  /** Which fault each kind of broken beginning is. `word` and `value` have no slash. */
  lemma FaultsByShape(word: string, value: string, rest: string)
    requires '/' !in word && word != "" && '/' !in value && value != ""
    ensures FaultAtStart(word) == Some(MissingKeySeparator)
    ensures FaultAtStart("/" + rest) == Some(EmptyKey)
    ensures FaultAtStart(word + "/") == Some(MissingValue)
    ensures FaultAtStart(word + "/" + value) == Some(MissingTerminator)
    ensures FaultAtStart(word + "/" + ("/" + rest)) == Some(EmptyValue)
    ensures FaultAtStart(word + "/" + (value + "/" + rest)) == None && FaultAtStart("") == None
  {
    hide AfterSlash;
    AfterSlashSkips(word, "");
    assert word + "/" == word + "/" + "";
    ShapeAfterKey(word, "");
    ShapeAfterKey(word, value);
    ShapeAfterKey(word, "/" + rest);
    ShapeAfterKey(word, value + "/" + rest);
    assert (value + "/" + rest)[0] == value[0] && (value + "/" + rest)[|value|] == '/';
    assert ("/" + rest)[0] == '/';
  }

  lemma ShapeAfterKey(word: string, after: string)
    requires '/' !in word && word != ""
    ensures var s := word + "/" + after; '/' in s && s[0] != '/' && s != "" && AfterSlash(s) == after
  {
    AfterSlashSkips(word, after);
    assert (word + "/" + after)[|word|] == '/' && (word + "/" + after)[0] == word[0];
  }

  /** In the first-wins map a key has the value of its first field, and no other key is present. */
  lemma {:induction false} FirstWinsIsFirst(fields: seq<Field>, key: string)
    ensures key in FirstWins(fields) <==> exists i :: 0 <= i < |fields| && fields[i].key == key
    ensures key in FirstWins(fields) ==>
      exists i :: 0 <= i < |fields| && fields[i] == Field(key, FirstWins(fields)[key])
               && forall j :: 0 <= j < i ==> fields[j].key != key
  {
    if fields == [] {
    } else {
      FirstWinsIsFirst(fields[1..], key);
      if fields[0].key == key {
        assert fields[0] == Field(key, FirstWins(fields)[key]);
      } else if key in FirstWins(fields) {
        var i :| 0 <= i < |fields[1..]| && fields[1..][i] == Field(key, FirstWins(fields[1..])[key])
              && forall j :: 0 <= j < i ==> fields[1..][j].key != key;
        assert fields[i + 1] == Field(key, FirstWins(fields)[key]);
        forall j | 0 <= j < i + 1 ensures fields[j].key != key {
          if j > 0 { assert fields[j] == fields[1..][j - 1]; }
        }
      } else {
        forall i | 0 <= i < |fields| ensures fields[i].key != key {
          if i > 0 { assert fields[i] == fields[1..][i - 1]; }
        }
      }
    }
  }
}
