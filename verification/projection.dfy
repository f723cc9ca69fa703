/** The record projector: `process_dictionary_with_config` builds one flat
    output dictionary from a config that maps output names to extraction
    specs. */
module Projection {
  import opened Results
  import opened Json
  import opened Paths

  /** The shape of one config entry. A list is a bare path, a tuple is a
      `(path, function)` pair, anything else (kept as `got`) is malformed.
      A list is always encoded as `Direct`, so `got` is never a `JList`. */
  datatype Spec =
    | Direct(path: Path)
    | Transformed(path: Path, f: Value -> Value)
    | Malformed(got: Value)

  datatype Field = Field(name: string, spec: Spec)

  /** A config in the iteration order of the Python dictionary. */
  type Config = seq<Field>

  /** A flat output record. */
  type Record = map<string, Value>

  /** The `TypeError`s the engine raises. */
  datatype TypeError =
    | IncorrectConfigFormat(got: Value)
    | NotIterable(got: Value)

  function Names(config: Config): set<string> {
    set i | 0 <= i < |config| :: config[i].name
  }

  predicate DistinctNames(config: Config) {
    forall i, j | 0 <= i < j < |config| :: config[i].name != config[j].name
  }

  predicate WellFormed(config: Config) {
    forall i | 0 <= i < |config| :: !config[i].spec.Malformed?
  }

  /** No later entry of `config` reuses the name of entry `i`, so entry `i`
      is the one whose value the output keeps. */
  predicate LastWithName(config: Config, i: int)
    requires 0 <= i < |config|
  {
    forall j | i < j < |config| :: config[j].name != config[i].name
  }

  /** The value one spec produces for `record`, or the error it raises. */
  function ApplySpec(record: Value, spec: Spec): (r: Result<Value, TypeError>)
    ensures r.Failure? <==> spec.Malformed?
    ensures r.Failure? ==> r.error == IncorrectConfigFormat(spec.got)
  {
    match spec
    case Direct(path) => Success(Extract(record, path))
    case Transformed(path, f) => Success(f(Extract(record, path)))
    case Malformed(got) => Failure(IncorrectConfigFormat(got))
  }

  /** Projects one record. Entries are handled in config order, each written
      into the output under its name; the first malformed entry raises. */
  function ProcessDictionary(record: Value, config: Config): (r: Result<Record, TypeError>)
    ensures r.Success? <==> WellFormed(config)
    ensures r.Success? ==> r.value.Keys == Names(config)
    ensures r.Success? ==>
              forall i | 0 <= i < |config| && LastWithName(config, i) ::
                ApplySpec(record, config[i].spec) == Success(r.value[config[i].name])
    ensures r.Failure? ==>
              exists i | 0 <= i < |config| ::
                && config[i].spec.Malformed?
                && WellFormed(config[..i])
                && r.error == IncorrectConfigFormat(config[i].spec.got)
    decreases |config|
  {
    if |config| == 0 then Success(map[])
    else
      var init := config[..|config| - 1];
      var last := config[|config| - 1];
      match ProcessDictionary(record, init)
      case Failure(e) =>
        FailureWitnessExtends(init, config, e);
        Failure(e)
      case Success(res) =>
        assert config[..|config| - 1] == init;
        match ApplySpec(record, last.spec)
        case Failure(e) =>
          FailureAtLast(config, e);
          Failure(e)
        case Success(v) =>
          SuccessExtendsShape(record, config, init, res, v);
          SuccessExtendsValues(record, config, init, res, v);
          Success(res[last.name := v])
  }

  /** With distinct names, a successful projection maps every bare-path
      field to the resolved value and every `(path, f)` field to `f` of it. */
  lemma ProjectedFields(record: Value, config: Config)
    requires DistinctNames(config) && WellFormed(config)
    ensures var out := ProcessDictionary(record, config).value;
            forall i | 0 <= i < |config| && config[i].spec.Direct? ::
              out[config[i].name] == Extract(record, config[i].spec.path)
    ensures var out := ProcessDictionary(record, config).value;
            forall i | 0 <= i < |config| && config[i].spec.Transformed? ::
              out[config[i].name] == config[i].spec.f(Extract(record, config[i].spec.path))
  {
  }

  /** Each output field depends only on its own entry and the record: the
      entry alone, as a one-field config, yields the same value. */
  lemma ProcessDictionaryFieldLocal(record: Value, config: Config, i: int)
    requires 0 <= i < |config| && LastWithName(config, i)
    requires WellFormed(config)
    ensures ProcessDictionary(record, [config[i]])
         == Success(map[config[i].name := ProcessDictionary(record, config).value[config[i].name]])
  {
  }

  /** Whether projection fails, and with which error, depends on the config
      alone and never on the record being projected. */
  lemma ProcessDictionaryErrorIgnoresRecord(a: Value, b: Value, config: Config)
    requires !WellFormed(config)
    ensures ProcessDictionary(a, config).Failure?
    ensures ProcessDictionary(b, config) == ProcessDictionary(a, config)
  {
  }

  /** The order of the config's entries does not matter: two configs with
      distinct names that give every name an equivalent spec project every
      record to the same output. */
  lemma ProcessDictionaryOrderIndependent(record: Value, c1: Config, c2: Config)
    requires DistinctNames(c1) && DistinctNames(c2) && Names(c1) == Names(c2)
    requires forall i, j | 0 <= i < |c1| && 0 <= j < |c2| && c1[i].name == c2[j].name ::
               ApplySpec(record, c1[i].spec) == ApplySpec(record, c2[j].spec)
    ensures ProcessDictionary(record, c1).Success? == ProcessDictionary(record, c2).Success?
    ensures ProcessDictionary(record, c1).Success? ==>
              ProcessDictionary(record, c1) == ProcessDictionary(record, c2)
  {
    assert WellFormed(c1) <==> WellFormed(c2) by {
      if WellFormed(c1) {
        forall j | 0 <= j < |c2| ensures !c2[j].spec.Malformed? {
          assert c2[j].name in Names(c1);
          var i :| 0 <= i < |c1| && c1[i].name == c2[j].name;
        }
      }
      if WellFormed(c2) {
        forall i | 0 <= i < |c1| ensures !c1[i].spec.Malformed? {
          assert c1[i].name in Names(c2);
          var j :| 0 <= j < |c2| && c2[j].name == c1[i].name;
        }
      }
    }
    if WellFormed(c1) {
      var o1 := ProcessDictionary(record, c1).value;
      var o2 := ProcessDictionary(record, c2).value;
      forall n | n in o1 ensures n in o2 && o1[n] == o2[n] {
        var i :| 0 <= i < |c1| && c1[i].name == n;
        var j :| 0 <= j < |c2| && c2[j].name == n;
        assert LastWithName(c1, i) && LastWithName(c2, j);
      }
      assert o1 == o2;
    }
  }

  /** A failing prefix of a config exhibits its first malformed entry in the
      whole config too. */
  lemma FailureWitnessExtends(init: Config, config: Config, e: TypeError)
    requires |init| <= |config| && init == config[..|init|]
    requires exists i | 0 <= i < |init| ::
               && init[i].spec.Malformed?
               && WellFormed(init[..i])
               && e == IncorrectConfigFormat(init[i].spec.got)
    ensures exists i | 0 <= i < |config| ::
              && config[i].spec.Malformed?
              && WellFormed(config[..i])
              && e == IncorrectConfigFormat(config[i].spec.got)
  {
    var i :| 0 <= i < |init| && init[i].spec.Malformed? && WellFormed(init[..i])
             && e == IncorrectConfigFormat(init[i].spec.got);
    assert init[..i] == config[..i];
  }

  /** The last entry of a config whose other entries are well formed is the
      first malformed one, when it fails. */
  lemma FailureAtLast(config: Config, e: TypeError)
    requires |config| > 0 && WellFormed(config[..|config| - 1])
    requires config[|config| - 1].spec.Malformed?
    requires e == IncorrectConfigFormat(config[|config| - 1].spec.got)
    ensures exists i | 0 <= i < |config| ::
              && config[i].spec.Malformed?
              && WellFormed(config[..i])
              && e == IncorrectConfigFormat(config[i].spec.got)
  {
  }

  /** The names of a config are those of all but its last entry, plus the
      last entry's. */
  lemma NamesSnoc(config: Config)
    requires |config| > 0
    ensures Names(config) == Names(config[..|config| - 1]) + {config[|config| - 1].name}
  {
  }

  /** A config whose prefix is well formed and whose last entry applies is
      well formed, and its output keys gain the last entry's name. */
  lemma SuccessExtendsShape(record: Value, config: Config, init: Config, res: Record, v: Value)
    requires |config| > 0 && init == config[..|config| - 1]
    requires WellFormed(init)
    requires res.Keys == Names(init)
    requires ApplySpec(record, config[|config| - 1].spec) == Success(v)
    ensures WellFormed(config)
    ensures res[config[|config| - 1].name := v].Keys == Names(config)
  {
    var n := |config| - 1;
    NamesSnoc(config);
    forall i | 0 <= i < |config|
      ensures !config[i].spec.Malformed?
    {
      if i < n {
        assert init[i] == config[i];
      }
    }
  }

  /** Writing the last entry's value into the output of the prefix keeps
      every surviving entry's value and adds the last one's. */
  lemma SuccessExtendsValues(record: Value, config: Config, init: Config, res: Record, v: Value)
    requires |config| > 0 && init == config[..|config| - 1]
    requires res.Keys == Names(init)
    requires forall i | 0 <= i < |init| && LastWithName(init, i) ::
               ApplySpec(record, init[i].spec) == Success(res[init[i].name])
    requires ApplySpec(record, config[|config| - 1].spec) == Success(v)
    ensures forall i | 0 <= i < |config| && LastWithName(config, i) ::
              && config[i].name in res[config[|config| - 1].name := v]
              && ApplySpec(record, config[i].spec) == Success(res[config[|config| - 1].name := v][config[i].name])
  {
    var n := |config| - 1;
    var out := res[config[n].name := v];
    forall i | 0 <= i < |config| && LastWithName(config, i)
      ensures config[i].name in out && ApplySpec(record, config[i].spec) == Success(out[config[i].name])
    {
      if i < n {
        assert init[i] == config[i];
        assert init[i].name in Names(init);
        assert LastWithName(init, i);
      }
    }
  }
}
