/** The worklist walk of the slicer, from the writers of the selected paths back to the producers of what they read. */
module SliceWalk {
  import opened Text
  import opened Trace
  import opened SliceScan

  datatype OutputFile = OutputFile(path: string, hash: string)

  function HashesOf(outputs: seq<OutputFile>): set<string>
  {
    set i | 0 <= i < |outputs| :: outputs[i].hash
  }

  /** `members` contains every writer of a selected path. */
  ghost predicate HasSeeds(s: Scan, outputs: seq<OutputFile>, members: set<Instance>)
  {
    forall i :: 0 <= i < |outputs| ==> Get(s.byPath, outputs[i].path) <= members
  }

  /** Content that a member read, unless it is itself a selected output, brings in all its writers. */
  ghost predicate BringsProducers(s: Scan, outs: set<string>, members: set<Instance>)
  {
    forall p, h :: p in members && p in s.flows && h in s.flows[p].input && h !in outs ==> Get(s.byHash, h) <= members
  }

  ghost predicate IsClosed(s: Scan, outputs: seq<OutputFile>, members: set<Instance>)
  {
    HasSeeds(s, outputs, members) && BringsProducers(s, HashesOf(outputs), members)
  }

  ghost predicate IsLeast(s: Scan, outputs: seq<OutputFile>, members: set<Instance>)
  {
    IsClosed(s, outputs, members) && forall others :: IsClosed(s, outputs, others) ==> members <= others
  }

  lemma LeastIsUnique(s: Scan, outputs: seq<OutputFile>, a: set<Instance>, b: set<Instance>)
    requires IsLeast(s, outputs, a) && IsLeast(s, outputs, b)
    ensures a == b
  {
  }

  /** All that the given processes read. */
  function ReadsOf(s: Scan, members: set<Instance>): set<string>
  {
    set p, h | p in members && p in s.flows && h in s.flows[p].input :: h
  }

  function AllWriters(m: Writers): set<Instance>
  {
    set k, p | k in m && p in m[k] :: p
  }

  /** Enqueue the writers that are not yet included, in any order. */
  method Include(included: set<Instance>, queue: seq<Instance>, writers: set<Instance>)
      returns (included': set<Instance>, queue': seq<Instance>)
    ensures included' == included + writers
    ensures queue <= queue' && Elements(queue') == Elements(queue) + (writers - included)
    ensures writers <= included ==> queue' == queue
  {
    included', queue' := included, queue;
    var rest := writers;
    while rest != {}
      invariant rest <= writers && included' == included + (writers - rest)
      invariant queue <= queue' && Elements(queue') == Elements(queue) + (writers - rest - included)
      invariant writers <= included ==> queue' == queue
      decreases rest
    {
      var w :| w in rest;
      if w !in included' {
        AppendElement(queue', w);
        included', queue' := included' + {w}, queue' + [w];
      }
      rest := rest - {w};
    }
  }

  lemma AppendElement<T>(s: seq<T>, x: T)
    ensures Elements(s + [x]) == Elements(s) + {x}
  {
  }

  lemma DropElement<T>(s: seq<T>)
    requires s != []
    ensures Elements(s) == {s[0]} + Elements(s[1..])
  {
    assert s == [s[0]] + s[1..];
  }

  method Seed(s: Scan, outputs: seq<OutputFile>) returns (included: set<Instance>, queue: seq<Instance>)
    ensures Elements(queue) == included && included <= AllWriters(s.byPath)
    ensures HasSeeds(s, outputs, included)
    ensures forall others :: IsClosed(s, outputs, others) ==> included <= others
  {
    included, queue := {}, [];
    for i := 0 to |outputs|
      invariant Elements(queue) == included && included <= AllWriters(s.byPath)
      invariant forall k :: 0 <= k < i ==> Get(s.byPath, outputs[k].path) <= included
      invariant forall others :: IsClosed(s, outputs, others) ==> included <= others
    {
      included, queue := Include(included, queue, Get(s.byPath, outputs[i].path));
    }
  }

  /** The writers of all relevant hashes that are not themselves selected outputs are included. */
  ghost predicate ProducersIncluded(s: Scan, outs: set<string>, relevant: set<string>, included: set<Instance>)
  {
    forall h :: h in relevant && h !in outs ==> Get(s.byHash, h) <= included
  }

  /** What the worklist loop keeps; `processed` are the members that left the queue. */
  ghost predicate WalkInv(s: Scan, outputs: seq<OutputFile>, processed: set<Instance>, queue: seq<Instance>,
                          included: set<Instance>, relevant: set<string>)
  {
    && included == processed + Elements(queue)
    && included <= AllWriters(s.byPath) + AllWriters(s.byHash)
    && HasSeeds(s, outputs, included)
    && ProducersIncluded(s, HashesOf(outputs), relevant, included)
    && (forall others :: IsClosed(s, outputs, others) ==> included <= others)
  }

  /** One round: visit everything that `process` read. */
  method Visit(s: Scan, outputs: seq<OutputFile>, process: Instance, included: set<Instance>, queue: seq<Instance>,
               relevant: set<string>)
      returns (included': set<Instance>, queue': seq<Instance>, relevant': set<string>)
    requires process in included && process in s.flows && HashesOf(outputs) <= relevant
    requires included <= AllWriters(s.byPath) + AllWriters(s.byHash)
    requires ProducersIncluded(s, HashesOf(outputs), relevant, included)
    requires forall others :: IsClosed(s, outputs, others) ==> included <= others
    ensures relevant' == relevant + s.flows[process].input
    ensures included <= included' <= AllWriters(s.byPath) + AllWriters(s.byHash)
    ensures Elements(queue') == Elements(queue) + (included' - included)
    ensures included' == included ==> queue' == queue
    ensures ProducersIncluded(s, HashesOf(outputs), relevant', included')
    ensures forall others :: IsClosed(s, outputs, others) ==> included' <= others
  {
    included', queue', relevant' := included, queue, relevant;
    var rest := s.flows[process].input;
    while rest != {}
      invariant rest <= s.flows[process].input && relevant' == relevant + (s.flows[process].input - rest)
      invariant included <= included' <= AllWriters(s.byPath) + AllWriters(s.byHash)
      invariant Elements(queue') == Elements(queue) + (included' - included)
      invariant included' == included ==> queue' == queue
      invariant ProducersIncluded(s, HashesOf(outputs), relevant', included')
      invariant forall others :: IsClosed(s, outputs, others) ==> included' <= others
      decreases rest
    {
      var h :| h in rest;
      if h !in relevant' {
        var writers := Get(s.byHash, h);
        ProducersFollow(s, outputs, process, h);
        assert writers <= AllWriters(s.byHash);
        included', queue' := Include(included', queue', writers);
        relevant' := relevant' + {h};
      }
      rest := rest - {h};
    }
  }

  lemma ProducersFollow(s: Scan, outputs: seq<OutputFile>, process: Instance, h: string)
    requires process in s.flows && h in s.flows[process].input && h !in HashesOf(outputs)
    ensures forall others :: IsClosed(s, outputs, others) && process in others ==> Get(s.byHash, h) <= others
  {
  }

  /**
   The worklist terminates with exactly the least closed set of processes, and with the selected hashes and all
   reads of members as relevant hashes, whatever the iteration order of the hash sets.
   */
  method Walk(s: Scan, outputs: seq<OutputFile>) returns (included: set<Instance>, relevant: set<string>)
    ensures IsLeast(s, outputs, included)
    ensures relevant == HashesOf(outputs) + ReadsOf(s, included)
  {
    var queue;
    included, queue := Seed(s, outputs);
    relevant := HashesOf(outputs);
    ghost var processed: set<Instance> := {};
    while queue != []
      invariant WalkInv(s, outputs, processed, queue, included, relevant)
      invariant relevant == HashesOf(outputs) + ReadsOf(s, processed)
      decreases AllWriters(s.byPath) + AllWriters(s.byHash) - included, |queue|
    {
      var process := queue[0];
      DropElement(queue);
      queue := queue[1..];
      ReadsGrow(s, processed, process);
      processed := processed + {process};
      if process in s.flows {
        included, queue, relevant := Visit(s, outputs, process, included, queue, relevant);
      }
    }
    WalkEnds(s, outputs, included, relevant);
  }

  lemma ReadsGrow(s: Scan, processed: set<Instance>, p: Instance)
    ensures ReadsOf(s, processed + {p}) == ReadsOf(s, processed) + if p in s.flows then s.flows[p].input else {}
  {
  }

  lemma WalkEnds(s: Scan, outputs: seq<OutputFile>, included: set<Instance>, relevant: set<string>)
    requires WalkInv(s, outputs, included, [], included, relevant)
    requires relevant == HashesOf(outputs) + ReadsOf(s, included)
    ensures IsLeast(s, outputs, included)
  {
    forall p, h | p in included && p in s.flows && h in s.flows[p].input && h !in HashesOf(outputs)
      ensures Get(s.byHash, h) <= included
    {
      assert h in ReadsOf(s, included);
    }
  }
}
