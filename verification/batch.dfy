/** The batch projector: `process_list_of_dicts_with_config` projects every
    record of a list, in order, and lets the first error abort the batch. */
module Batch {
  import opened Results
  import opened Json
  import opened Projection

  /** Projects each record in turn, appending its output; an error raised by
      any record is the result of the whole batch. */
  function ProcessList(records: seq<Value>, config: Config): (r: Result<seq<Record>, TypeError>)
    ensures r.Success? ==>
              && |r.value| == |records|
              && forall i | 0 <= i < |records| ::
                   ProcessDictionary(records[i], config) == Success(r.value[i])
    ensures r.Failure? ==>
              exists i | 0 <= i < |records| ::
                && ProcessDictionary(records[i], config) == Failure(r.error)
                && forall j | 0 <= j < i :: ProcessDictionary(records[j], config).Success?
    decreases |records|
  {
    if |records| == 0 then Success([])
    else
      var init := records[..|records| - 1];
      var last := records[|records| - 1];
      match ProcessList(init, config)
      case Failure(e) =>
        assert forall i | 0 <= i < |init| :: init[i] == records[i];
        Failure(e)
      case Success(outs) =>
        var out :- ProcessDictionary(last, config);
        Success(outs + [out])
  }

  /** A batch fails exactly when it has a record and the config has a
      malformed entry: an empty batch succeeds whatever the config. */
  lemma ProcessListFailsIffMalformed(records: seq<Value>, config: Config)
    ensures ProcessList(records, config).Failure? <==> |records| > 0 && !WellFormed(config)
  {
  }

  /** When a batch fails, its error is the one the first record raises,
      which is the first malformed entry of the config. */
  lemma ProcessListFailureIsFirstRecords(records: seq<Value>, config: Config)
    requires ProcessList(records, config).Failure?
    ensures |records| > 0
    ensures ProcessDictionary(records[0], config) == Failure(ProcessList(records, config).error)
  {
  }
}
