/** main.go: the flag value that lists the gate conditions, printed and parsed. */
module GateFlag {
  import opened Sequences

  // ---- the library functions on strings

  function Split(s: string): (parts: seq<string>)
    ensures parts != []
  {
    if s == [] then [""]
    else if s[0] == ',' then [""] + Split(s[1..])
    else [[s[0]] + Split(s[1..])[0]] + Split(s[1..])[1..]
  }

  function Join(parts: seq<string>): string {
    if parts == [] then ""
    else if |parts| == 1 then parts[0]
    else parts[0] + "," + Join(parts[1..])
  }

  function TrimLeft(s: string): string {
    if s != [] && s[0] == ',' then TrimLeft(s[1..]) else s
  }

  function TrimRight(s: string): string {
    if s != [] && s[|s| - 1] == ',' then TrimRight(s[..|s| - 1]) else s
  }

  function Trim(s: string): string {
    TrimRight(TrimLeft(s))
  }

  // ---- the flag

  function IsNonEmpty(): string -> bool {
    (s: string) => s != ""
  }

  function Words(s: string): seq<string> {
    Filter(IsNonEmpty(), Split(s))
  }

  function Parse(arg: string): seq<string> {
    Words(Trim(arg))
  }

  class ConditionSliceVar {
    var value: seq<string>

    constructor ()
      ensures value == []
    {
      value := [];
    }

    method String() returns (text: string)
      ensures text == Join(value)
    {
      var s := new string[|value|](_ => "");
      for i := 0 to |value|
        invariant forall j :: 0 <= j < i ==> s[j] == value[j]
      {
        s[i] := value[i];
      }
      assert s[..] == value;
      return Join(s[..]);
    }

    method Set(arg: string)
      modifies this
      ensures value == Parse(arg)
    {
      var parts := Split(Trim(arg));
      var t: seq<string> := [];
      for i := 0 to |parts|
        invariant t == Filter(IsNonEmpty(), parts[..i])
      {
        assert parts[..i + 1] == parts[..i] + [parts[i]];
        FilterAppend(IsNonEmpty(), parts[..i], [parts[i]]);
        if parts[i] == "" {
          continue;
        }
        t := t + [parts[i]];
      }
      assert parts[..|parts|] == parts;
      value := t;
    }
  }

  // ---- commas separate, and nothing else does

  predicate CommaFree(s: string) {
    ',' !in s
  }

  predicate IsGate(s: string) {
    s != "" && CommaFree(s)
  }

  lemma {:induction false} SplitAtComma(a: string, b: string)
    ensures Split(a + "," + b) == Split(a) + Split(b)
  {
    if a == [] {
      assert a + "," + b == "," + b && ("," + b)[1..] == b;
    } else {
      assert (a + "," + b)[0] == a[0] && (a + "," + b)[1..] == a[1..] + "," + b;
      SplitAtComma(a[1..], b);
    }
  }

  lemma {:induction false} SplitCommaFree(a: string)
    requires CommaFree(a)
    ensures Split(a) == [a]
  {
    if a != [] {
      assert a[0] in a;
      assert forall c :: c in a[1..] ==> c in a;
      SplitCommaFree(a[1..]);
      assert a == [a[0]] + a[1..];
    }
  }

  /** Printed names stand between single commas: splitting gives them back, the empty ones too. */
  lemma {:induction false} SplitJoin(parts: seq<string>)
    requires parts != [] && forall p :: p in parts ==> CommaFree(p)
    ensures Split(Join(parts)) == parts
  {
    assert parts[0] in parts;
    SplitCommaFree(parts[0]);
    if |parts| > 1 {
      assert forall p :: p in parts[1..] ==> p in parts;
      SplitJoin(parts[1..]);
      SplitAtComma(parts[0], Join(parts[1..]));
    }
  }

  function TotalLength(parts: seq<string>): nat {
    if parts == [] then 0 else |parts[0]| + TotalLength(parts[1..])
  }

  /** The text has the names' characters and one comma less than names. */
  lemma {:induction false} JoinLength(parts: seq<string>)
    ensures |Join(parts)| == TotalLength(parts) + (if parts == [] then 0 else |parts| - 1)
  {
    if |parts| > 1 {
      JoinLength(parts[1..]);
    }
  }

  lemma WordsAtComma(a: string, b: string)
    ensures Words(a + "," + b) == Words(a) + Words(b)
  {
    SplitAtComma(a, b);
    FilterAppend(IsNonEmpty(), Split(a), Split(b));
  }

  lemma WordsOfWord(a: string)
    requires CommaFree(a)
    ensures Words(a) == if a == "" then [] else [a]
  {
    SplitCommaFree(a);
  }

  lemma {:induction false} WordsAreGates(s: string)
    ensures forall w :: w in Split(s) ==> CommaFree(w)
    ensures forall w :: w in Words(s) ==> IsGate(w)
  {
    if s != [] {
      WordsAreGates(s[1..]);
      assert Split(s[1..])[0] in Split(s[1..]);
    }
    forall w | w in Words(s) ensures IsGate(w) {
      FilterMember(IsNonEmpty(), Split(s), w);
    }
  }

  lemma {:induction false} TrimLeftKeepsWords(s: string)
    ensures Words(TrimLeft(s)) == Words(s)
  {
    if s != [] && s[0] == ',' {
      TrimLeftKeepsWords(s[1..]);
      assert s == "" + "," + s[1..];
      WordsAtComma("", s[1..]);
      WordsOfWord("");
    }
  }

  lemma {:induction false} TrimRightKeepsWords(s: string)
    ensures Words(TrimRight(s)) == Words(s)
    decreases |s|
  {
    if s != [] && s[|s| - 1] == ',' {
      var front := s[..|s| - 1];
      TrimRightKeepsWords(front);
      assert s == front + "," + "";
      WordsAtComma(front, "");
      WordsOfWord("");
      assert Words(front) + [] == Words(front);
    }
  }

  /** Trimming never changes what is parsed. */
  lemma TrimIsRedundant(s: string)
    ensures Parse(s) == Words(s)
  {
    TrimLeftKeepsWords(s);
    TrimRightKeepsWords(TrimLeft(s));
  }

  lemma OuterCommas(s: string)
    ensures Parse("," + s) == Parse(s) && Parse(s + ",") == Parse(s)
  {
    TrimIsRedundant(s);
    TrimIsRedundant("," + s);
    TrimIsRedundant(s + ",");
    assert "," + s == "" + "," + s && s + "," == s + "," + "";
    WordsAtComma("", s);
    WordsAtComma(s, "");
    WordsOfWord("");
  }

  lemma {:induction false} WordsOfJoin(gates: seq<string>)
    requires forall g :: g in gates ==> IsGate(g)
    ensures Words(Join(gates)) == gates
  {
    if gates == [] {
      WordsOfWord("");
    } else {
      assert gates[0] in gates;
      WordsOfWord(gates[0]);
      if |gates| > 1 {
        assert forall g :: g in gates[1..] ==> g in gates;
        WordsOfJoin(gates[1..]);
        WordsAtComma(gates[0], Join(gates[1..]));
      }
    }
  }

  /** Printing and parsing give back a list exactly when its names are non-empty and comma-free. */
  lemma PrintParse(gates: seq<string>)
    ensures Parse(Join(gates)) == gates <==> forall g :: g in gates ==> IsGate(g)
  {
    TrimIsRedundant(Join(gates));
    WordsAreGates(Join(gates));
    if forall g :: g in gates ==> IsGate(g) {
      WordsOfJoin(gates);
    }
  }

  /** What was parsed once is printed and parsed unchanged ever after. */
  lemma ParsePrintParse(arg: string)
    ensures Parse(Join(Parse(arg))) == Parse(arg)
  {
    WordsAreGates(Trim(arg));
    PrintParse(Parse(arg));
  }
}
