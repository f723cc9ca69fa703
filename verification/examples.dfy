/** The self-checks at the bottom of `json_dict_processing.py`, and a few
    more inputs that exercise a negative index, a path that leaves the
    record, a malformed config entry and a list processor, as facts about
    the model. */
module Examples {
  import opened Results
  import opened Json
  import opened Paths
  import opened Projection
  import opened Batch
  import opened Processors

  function DigitValue(c: char): int {
    (c as int) - ('0' as int)
  }

  predicate AllDigits(s: string) {
    forall i | 0 <= i < |s| :: '0' <= s[i] <= '9'
  }

  /** The decimal number a string of digits spells. */
  function DigitsValue(s: string): int
    decreases |s|
  {
    if |s| == 0 then 0 else 10 * DigitsValue(s[..|s| - 1]) + DigitValue(s[|s| - 1])
  }

  /** Python's `s[:4]`: the first four characters, or all of a shorter string. */
  function Prefix4(s: string): string {
    if |s| >= 4 then s[..4] else s
  }

  /** A total stand-in for `lambda s: int(s[:4])`: the number spelled by
      `s[:4]` when it is a non-empty run of ASCII digits, and null otherwise.
      Python raises for a non-string or an empty or non-numeric prefix, and
      also accepts a sign, surrounding spaces, underscores and non-ASCII
      digits, which the stand-in maps to null. */
  function LeadingYear(v: Value): Value {
    if v.JStr? && |Prefix4(v.s)| > 0 && AllDigits(Prefix4(v.s)) then JInt(DigitsValue(Prefix4(v.s)))
    else JNull
  }

  /** `{"a": {"b": [{"c": 1}], "d": {"e": "2001-05-01"}}}` */
  function Sample(): Value {
    JObj(map["a" := JObj(map[
      "b" := JList([JObj(map["c" := JInt(1)])]),
      "d" := JObj(map["e" := JStr("2001-05-01")])])])
  }

  function SampleConfig(): Config {
    [ Field("val", Direct([KStr("a"), KStr("b"), KInt(0), KStr("c")])),
      Field("y", Transformed([KStr("a"), KStr("d"), KStr("e")], LeadingYear)) ]
  }

  /** A second record, `{"a": {"d": {"e": "1999-12-31"}}}`, with a date
      but without the list the sample has. */
  function Other(): Value {
    JObj(map["a" := JObj(map["d" := JObj(map["e" := JStr("1999-12-31")])])])
  }

  /** Four digits spell the number their positional weights give. */
  lemma FourDigits(s: string)
    requires |s| == 4
    ensures DigitsValue(s) == 1000 * DigitValue(s[0]) + 100 * DigitValue(s[1])
                              + 10 * DigitValue(s[2]) + DigitValue(s[3])
  {
    var s1, s2, s3 := s[..1], s[..2], s[..3];
    assert s1[..0] == [] && s2[..1] == s1 && s3[..2] == s2 && s[..3] == s3;
    assert DigitsValue(s1) == DigitValue(s[0]);
    assert DigitsValue(s2) == 10 * DigitValue(s[0]) + DigitValue(s[1]);
    assert DigitsValue(s3) == 100 * DigitValue(s[0]) + 10 * DigitValue(s[1]) + DigitValue(s[2]);
  }

  /** The stand-in reads the year of each sample date, and reads a string
      shorter than four characters whole. */
  lemma LeadingYearOfDate()
    ensures LeadingYear(JStr("2001-05-01")) == JInt(2001)
    ensures LeadingYear(JStr("1999-12-31")) == JInt(1999)
    ensures LeadingYear(JStr("12")) == JInt(12)
  {
    assert Prefix4("12") == "12" && "12"[..1] == "1" && "1"[..0] == [];
    var s := "2001-05-01"[..4];
    assert s == "2001" && AllDigits(s);
    FourDigits(s);
    var t := "1999-12-31"[..4];
    assert t == "1999" && AllDigits(t);
    FourDigits(t);
  }

  /** `extract_nested_value(dct, ["a", "b", 0, "c"]) == 1` and
      `extract_nested_value(dct, ["a", "z"]) is None`. */
  lemma ExampleExtract()
    ensures Extract(Sample(), [KStr("a"), KStr("b"), KInt(0), KStr("c")]) == JInt(1)
    ensures Extract(Sample(), [KStr("a"), KStr("z")]) == JNull
  {
  }

  /** `res["val"] == 1 and res["y"] == 2001`. */
  lemma ExampleProcessDictionary()
    ensures ProcessDictionary(Sample(), SampleConfig())
         == Success(map["val" := JInt(1), "y" := JInt(2001)])
  {
    ExampleExtract();
    LeadingYearOfDate();
    var c := SampleConfig();
    var y := [KStr("a"), KStr("d"), KStr("e")];
    assert y[1..] == [KStr("d"), KStr("e")] && y[1..][1..] == [KStr("e")];
    assert c[..1][..0] == [] && c[..1] == [c[0]];
    assert Extract(Sample(), y) == JStr("2001-05-01");
  }

  /** A negative index does not wrap around: `{"a": [1, 2, 3]}` resolved
      along `["a", -1]` is `None`. */
  lemma ExampleNegativeIndex()
    ensures Extract(JObj(map["a" := JList([JInt(1), JInt(2), JInt(3)])]), [KStr("a"), KInt(-1)]) == JNull
  {
  }

  /** A path that leaves the record yields a missing field, not an error. */
  lemma ExampleMissingField()
    ensures ProcessDictionary(Sample(), [Field("missing", Direct([KStr("a"), KStr("z")]))])
         == Success(map["missing" := JNull])
  {
  }

  /** A config entry that is neither a list nor a tuple, as in
      `{"bad": 42}`, raises a `TypeError` naming the spec `42`. */
  lemma ExampleMalformedConfig(record: Value)
    ensures ProcessDictionary(record, [Field("bad", Malformed(JInt(42)))])
         == Failure(IncorrectConfigFormat(JInt(42)))
  {
  }

  /** A bare path applied to `None` gives a field with value `None`. */
  lemma ExampleProjectNull()
    ensures ProcessDictionary(JNull, [Field("val", Direct([KStr("a"), KStr("b"), KInt(0), KStr("c")]))])
         == Success(map["val" := JNull])
  {
  }

  /** The sample config on the second record: the list path is missing and
      the date is read. */
  lemma ExampleProjectOther()
    ensures ProcessDictionary(Other(), SampleConfig()) == Success(map["val" := JNull, "y" := JInt(1999)])
  {
    LeadingYearOfDate();
    var c := SampleConfig();
    var y := [KStr("a"), KStr("d"), KStr("e")];
    assert y[1..] == [KStr("d"), KStr("e")] && y[1..][1..] == [KStr("e")];
    assert Extract(Other(), y) == JStr("1999-12-31");
    var v := [KStr("a"), KStr("b"), KInt(0), KStr("c")];
    assert Extract(Other(), v) == JNull;
    assert c[..1][..0] == [] && c[..1] == [c[0]];
  }

  /** The sample config as a batch over both records. */
  lemma ExampleProcessList()
    ensures ProcessList([Sample(), Other()], SampleConfig())
         == Success([map["val" := JInt(1), "y" := JInt(2001)], map["val" := JNull, "y" := JInt(1999)]])
  {
    ExampleProcessDictionary();
    ExampleProjectOther();
    var c := SampleConfig();
    var rs := [Sample(), Other()];
    var m1 := map["val" := JInt(1), "y" := JInt(2001)];
    var m2 := map["val" := JNull, "y" := JInt(1999)];
    assert rs[..1] == [Sample()] && [Sample()][..0] == [];
    assert ProcessList([Sample()], c) == Success([m1]) by {
      assert ProcessList([], c) == Success([]);
      assert [] + [m1] == [m1];
    }
    assert [m1] + [m2] == [m1, m2];
  }

  /** The sample config as a list processor over both records. */
  lemma ExampleListProcessor()
    ensures Processor(SampleConfig(), true).Apply(JList([Sample(), Other()]))
         == Success(JList([JObj(map["val" := JInt(1), "y" := JInt(2001)]),
                           JObj(map["val" := JNull, "y" := JInt(1999)])]))
  {
    ExampleProcessList();
    var m1 := map["val" := JInt(1), "y" := JInt(2001)];
    var m2 := map["val" := JNull, "y" := JInt(1999)];
    ListProcessorReturns(SampleConfig(), [Sample(), Other()], [m1, m2]);
    assert AsList([m1, m2]).items == [JObj(m1), JObj(m2)];
  }
}
