/** The processor factory: `create_processor` fixes a config and a mode, and
    the processor it returns projects one record or a list of records. */
module Processors {
  import opened Results
  import opened Json
  import opened Projection
  import opened Batch

  /** Outputs of a batch, as the list value the processor returns. */
  function AsList(outs: seq<Record>): (v: Value)
    ensures v.JList? && |v.items| == |outs|
    ensures forall i | 0 <= i < |outs| :: v.items[i] == JObj(outs[i])
  {
    JList(seq(|outs|, i requires 0 <= i < |outs| => JObj(outs[i])))
  }

  /** The closure `create_processor` returns, made explicit: the captured
      config and the `list_processor` flag. */
  datatype Processor = Processor(config: Config, listProcessor: bool) {

    /** Calls the processor. In list mode the input must be a list (Python
        cannot iterate `None`); otherwise the input is the record itself. */
    function Apply(input: Value): (r: Result<Value, TypeError>)
      ensures r.Success? <==>
                if listProcessor then input.JList? && (|input.items| == 0 || WellFormed(config))
                else WellFormed(config)
      ensures r.Success? && !listProcessor ==>
                r.value.JObj? && r.value.fields.Keys == Names(config)
      ensures r.Success? && listProcessor ==>
                && r.value.JList? && |r.value.items| == |input.items|
                && forall i | 0 <= i < |input.items| ::
                     r.value.items[i].JObj? && r.value.items[i].fields.Keys == Names(config)
      ensures listProcessor && !input.JList? ==> r == Failure(NotIterable(input))
    {
      if listProcessor then
        match input
        case JList(items) =>
          ProcessListFailsIffMalformed(items, config);
          var outs :- ProcessList(items, config);
          Success(AsList(outs))
        case _ => Failure(NotIterable(input))
      else
        var out :- ProcessDictionary(input, config);
        Success(JObj(out))
    }
  }

  /** Binds a config and a mode, single-record by default; nothing about the
      config is checked here. */
  function CreateProcessor(config: Config, listProcessor: bool := false): (p: Processor)
    ensures p.listProcessor == listProcessor
    ensures !listProcessor ==>
              forall record: Value ::
                p.Apply(record) == (var r := ProcessDictionary(record, config);
                                    if r.Success? then Success(JObj(r.value)) else Failure(r.error))
    ensures listProcessor ==>
              forall records: seq<Value> ::
                p.Apply(JList(records)) == (var r := ProcessList(records, config);
                                            if r.Success? then Success(AsList(r.value)) else Failure(r.error))
    ensures forall input: Value :: p.Apply(input).Success? ==> WellFormed(config) || input == JList([])
  {
    Processor(config, listProcessor)
  }

  /** Without the flag, `create_processor` builds a single-record processor. */
  lemma DefaultIsSingleRecord(config: Config, record: Value)
    ensures CreateProcessor(config).Apply(record) == CreateProcessor(config, false).Apply(record)
    ensures CreateProcessor(config).Apply(record).Success? ==>
              CreateProcessor(config).Apply(record).value.JObj?
  {
  }

  /** A batch that projects to `outs` is what the list processor returns,
      one record value per output. */
  lemma ListProcessorReturns(config: Config, records: seq<Value>, outs: seq<Record>)
    requires ProcessList(records, config) == Success(outs)
    ensures Processor(config, true).Apply(JList(records)) == Success(AsList(outs))
  {
  }

  /** Element `i` of a list processor's output is what the single-record
      processor with the same config yields for element `i` of the input. */
  lemma ListProcessorIsElementwise(config: Config, records: seq<Value>)
    requires CreateProcessor(config, true).Apply(JList(records)).Success?
    ensures var outs := CreateProcessor(config, true).Apply(JList(records)).value.items;
            forall i | 0 <= i < |records| ::
              CreateProcessor(config, false).Apply(records[i]) == Success(outs[i])
  {
  }

  /** A list processor given `None` (an absent list) raises rather than
      returning an empty list. */
  lemma ListProcessorRejectsNull(config: Config)
    ensures CreateProcessor(config, true).Apply(JNull) == Failure(NotIterable(JNull))
  {
  }

  /** Construction never validates: even a malformed config yields a list
      processor that maps the empty list to the empty list, and the error
      surfaces only once a record is projected. */
  lemma CreateProcessorDefersValidation(config: Config, record: Value)
    ensures CreateProcessor(config, true).Apply(JList([])) == Success(JList([]))
    ensures CreateProcessor(config, false).Apply(record).Failure? <==> !WellFormed(config)
    ensures CreateProcessor(config, true).Apply(JList([record])).Failure? <==> !WellFormed(config)
  {
  }
}
