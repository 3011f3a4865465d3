/** `DataPipeline`: an ordered list of processors, run one after another over scraped records. */
module Pipeline {
  import opened Records

  /** A processor takes the records so far and returns the records for the next one. */
  type Processor = seq<Record> -> seq<Record>

  /** The processors `ps` applied to `data`, first processor first. */
  function Apply(ps: seq<Processor>, data: seq<Record>): seq<Record>
    decreases |ps|
  {
    if ps == [] then data else Apply(ps[1..], ps[0](data))
  }

  /** Running one more processor at the end applies it to what the others produced. */
  lemma {:induction false} ApplySnoc(ps: seq<Processor>, p: Processor, data: seq<Record>)
    ensures Apply(ps + [p], data) == p(Apply(ps, data))
    decreases |ps|
  {
    if ps == [] {
      assert [] + [p] == [p];
      assert Apply([p], data) == Apply([p][1..], p(data));
    } else {
      assert (ps + [p])[1..] == ps[1..] + [p];
      ApplySnoc(ps[1..], p, ps[0](data));
    }
  }

  /** Two pipelines run in sequence are the pipeline of both processor lists. */
  lemma {:induction false} ApplyConcat(ps: seq<Processor>, qs: seq<Processor>, data: seq<Record>)
    ensures Apply(ps + qs, data) == Apply(qs, Apply(ps, data))
    decreases |ps|
  {
    if ps == [] {
      assert [] + qs == qs;
    } else {
      assert (ps + qs)[1..] == ps[1..] + qs;
      ApplyConcat(ps[1..], qs, ps[0](data));
    }
  }

  class DataPipeline {
    var processors: seq<Processor>

    /** A new pipeline has no processors. */
    constructor()
      ensures processors == []
    {
      processors := [];
    }

    /** `add_processor`: appends `p` and hands back the same pipeline, for chaining. */
    method AddProcessor(p: Processor) returns (self: DataPipeline)
      modifies this
      ensures processors == old(processors) + [p]
      ensures self == this
    {
      processors := processors + [p];
      self := this;
    }

    /** `process`: every processor in insertion order, each on the previous one's output. */
    method Process(data: seq<Record>) returns (result: seq<Record>)
      ensures result == Apply(processors, data)
    {
      result := data;
      for i := 0 to |processors|
        invariant result == Apply(processors[..i], data)
      {
        ApplySnoc(processors[..i], processors[i], data);
        assert processors[..i + 1] == processors[..i] + [processors[i]];
        result := processors[i](result);
      }
      assert processors[..|processors|] == processors;
    }
  }

  /** Three processors run as `p3(p2(p1(data)))`. */
  lemma {:induction false} ApplyThree(p1: Processor, p2: Processor, p3: Processor, data: seq<Record>)
    ensures Apply([p1, p2, p3], data) == p3(p2(p1(data)))
  {
    assert [p1, p2, p3][1..] == [p2, p3];
    assert [p2, p3][1..] == [p3];
    assert [p3][1..] == [];
    calc {
      Apply([p1, p2, p3], data);
      Apply([p2, p3], p1(data));
      Apply([p3], p2(p1(data)));
      Apply([], p3(p2(p1(data))));
    }
  }
}
