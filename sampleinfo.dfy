/** Registration of samples, replicates and runs (`get_columns` and
    `add_sample_info` of src/db_data/add_data.py). The database enters as
    its current maximum ids, the sample and run names already stored, the
    replicate name-to-id lookup and the column lists of the three tables;
    the rows to insert and the run ids added are the result. */
module SampleInfo {
  import opened Common

  /** The JSON scalars a sample description holds. */
  datatype Val = VInt(i: int) | VStr(s: string)

  type Dict = map<string, Val>

  /** What an f-string makes of a value. */
  function Text(v: Val): string
  {
    match v
    case VInt(i) => IntToString(i)
    case VStr(s) => s
  }

  datatype Run = Run(name: string, fields: Dict)

  /** One entry of `sample_info`: its `"runs"` member is held apart, and
      `None` when the entry has none. */
  datatype Sample = Sample(name: string, fields: Dict, runs: Option<seq<Run>>)

  /** What `add_sample_info` reads from the database. `corrected` selects
      the replicate counter of the model (see `RunStep`). */
  datatype Db = Db(
    maxSampleId: int, maxRunId: int, maxReplicateId: int,
    sampleNames: set<string>, runNames: set<string>,
    replicates: map<string, int>,
    sampleColumns: seq<string>, replicateColumns: seq<string>, runColumns: seq<string>,
    corrected: bool)

  /** The three counters, the replicate lookup and the four lists the
      loops build. */
  datatype State = State(
    sampleId: int, runId: int, replicateId: int,
    lookup: map<string, int>,
    samples: seq<seq<Val>>, replicates: seq<seq<Val>>, runs: seq<seq<Val>>,
    runIds: seq<int>)

  function Start(db: Db): State
  {
    State(db.maxSampleId, db.maxRunId, db.maxReplicateId, db.replicates, [], [], [], [])
  }

  // ---------------------------------------------------------------- get_columns

  function Missing(c: string, name: string): string
  {
    "Please provide " + c + " for " + name
  }

  /** `get_columns`: the values of `d` in the order of `cols`, or the
      complaint about the first column `d` lacks. */
  function Columns(cols: seq<string>, d: Dict, name: string): (r: Result<seq<Val>>)
    ensures r.Ok? <==> forall c :: c in cols ==> c in d
    ensures r.Ok? ==> |r.value| == |cols|
  {
    if |cols| == 0 then Ok([])
    else
      match Columns(cols[..|cols| - 1], d, name)
      case Err(m) => Err(m)
      case Ok(vs) =>
        var c := cols[|cols| - 1];
        if c !in d then Err(Missing(c, name)) else Ok(vs + [d[c]])
  }

  lemma {:induction false} ColumnsValues(cols: seq<string>, d: Dict, name: string)
    requires Columns(cols, d, name).Ok?
    ensures forall i :: 0 <= i < |cols| ==> Columns(cols, d, name).value[i] == d[cols[i]]
  {
    if |cols| > 0 {
      ColumnsValues(cols[..|cols| - 1], d, name);
    }
  }

  lemma {:induction false} ColumnsError(cols: seq<string>, d: Dict, name: string) returns (k: nat)
    requires Columns(cols, d, name).Err?
    ensures k < |cols| && cols[k] !in d
    ensures forall i :: 0 <= i < k ==> cols[i] in d
    ensures Columns(cols, d, name).msg == Missing(cols[k], name)
  {
    var init := cols[..|cols| - 1];
    if Columns(init, d, name).Err? {
      k := ColumnsError(init, d, name);
    } else {
      k := |cols| - 1;
    }
  }

  /** The values are those of `d` in column order, and the error names the
      first missing column. */
  lemma ColumnsSpec(cols: seq<string>, d: Dict, name: string)
    ensures Columns(cols, d, name).Ok? ==>
      |Columns(cols, d, name).value| == |cols| &&
      forall i :: 0 <= i < |cols| ==> Columns(cols, d, name).value[i] == d[cols[i]]
    ensures Columns(cols, d, name).Err? ==>
      exists k :: 0 <= k < |cols| && cols[k] !in d &&
        (forall i :: 0 <= i < k ==> cols[i] in d) &&
        Columns(cols, d, name).msg == Missing(cols[k], name)
  {
    if Columns(cols, d, name).Ok? {
      ColumnsValues(cols, d, name);
    } else {
      var k := ColumnsError(cols, d, name);
    }
  }

  method GetColumns(cols: seq<string>, d: Dict, name: string) returns (r: Result<seq<Val>>)
    ensures r == Columns(cols, d, name)
  {
    var vs: seq<Val> := [];
    for i := 0 to |cols|
      invariant Columns(cols[..i], d, name) == Ok(vs)
    {
      assert cols[..i + 1][..i] == cols[..i];
      if cols[i] !in d {
        r := Err(Missing(cols[i], name));
        ColumnsStayErr(cols, d, name, i + 1);
        return;
      }
      vs := vs + [d[cols[i]]];
    }
    assert cols[..|cols|] == cols;
    r := Ok(vs);
  }

  lemma {:induction false} ColumnsStayErr(cols: seq<string>, d: Dict, name: string, i: nat)
    requires i <= |cols| && Columns(cols[..i], d, name).Err?
    ensures Columns(cols, d, name) == Columns(cols[..i], d, name)
    decreases |cols| - i
  {
    if i < |cols| {
      assert cols[..i + 1][..i] == cols[..i];
      ColumnsStayErr(cols, d, name, i + 1);
    } else {
      assert cols[..i] == cols;
    }
  }

  /** `row` has one value per column, and `VInt(v)` under every column
      named `key`. */
  predicate IdRowOk(cols: seq<string>, key: string, row: seq<Val>, v: int)
  {
    |row| == |cols| && forall c :: 0 <= c < |cols| && cols[c] == key ==> row[c] == VInt(v)
  }

  lemma IdRow(cols: seq<string>, d: Dict, name: string, key: string, v: int)
    requires Columns(cols, d, name).Ok? && key in d && d[key] == VInt(v)
    ensures IdRowOk(cols, key, Columns(cols, d, name).value, v)
  {
    ColumnsValues(cols, d, name);
  }

  // ------------------------------------------------------------ add_sample_info

  /** `'{experiment}-{sample}-{replicate}'` */
  function ReplicateName(experiment: Val, sample: string, replicate: Val): string
  {
    Text(experiment) + "-" + sample + "-" + Text(replicate)
  }

  /** The run's dictionary once the loop has filled in its ids and names. */
  function RunDict(fields: Dict, runName: string, runId: int, replicateName: string,
                   sampleId: int, replicateId: int): (d: Dict)
    ensures d.Keys == fields.Keys + {"run_name", "run_id", "replicate_name", "sample_id", "replicate_id"}
    ensures d["run_name"] == VStr(runName) && d["run_id"] == VInt(runId)
    ensures d["replicate_name"] == VStr(replicateName)
    ensures d["sample_id"] == VInt(sampleId) && d["replicate_id"] == VInt(replicateId)
    ensures forall k :: k in fields && k !in {"run_name", "run_id", "replicate_name", "sample_id", "replicate_id"} ==> d[k] == fields[k]
  {
    assert |"run_name"| == 8 && |"run_id"| == 6 && |"replicate_name"| == 14;
    assert |"sample_id"| == 9 && |"replicate_id"| == 12;
    fields["run_name" := VStr(runName)]["run_id" := VInt(runId)]
      ["replicate_name" := VStr(replicateName)]["sample_id" := VInt(sampleId)]
      ["replicate_id" := VInt(replicateId)]
  }

  function AlreadyAdded(run: string): string
  {
    "Run name " + run + " already added to the database."
  }

  /** One pass of the inner loop: run `run` of the sample `sample` whose
      dictionary is `sd`. As written, the replicate counter is set to the
      run's replicate id after every run; with `db.corrected` it only moves
      when a replicate is allocated. */
  function RunStep(db: Db, st: State, sample: string, sd: Dict, run: Run): Result<State>
  {
    if run.name in db.runNames then Err(AlreadyAdded(run.name))
    else if "experiment_name" !in sd then Err("KeyError: 'experiment_name'")
    else if "replicate_name" !in run.fields then Err("KeyError: 'replicate_name'")
    else
      var runId := st.runId + 1;
      var rname := ReplicateName(sd["experiment_name"], sample, run.fields["replicate_name"]);
      var isNew := rname !in st.lookup;
      var repId := if isNew then st.replicateId + 1 else st.lookup[rname];
      var d := RunDict(run.fields, run.name, runId, rname, st.sampleId, repId);
      var repRow := if isNew then Columns(db.replicateColumns, d, rname) else Ok([]);
      if repRow.Err? then Err(repRow.msg)
      else
        match Columns(db.runColumns, d, run.name)
        case Err(m) => Err(m)
        case Ok(row) => Ok(Advance(db, st, rname, repId, repRow.value, row))
  }

  /** The state after a run whose replicate `rname` has id `repId`, with
      the replicate row (used only when `rname` is new) and the run row. */
  function Advance(db: Db, st: State, rname: string, repId: int, repRow: seq<Val>, row: seq<Val>): State
  {
    var isNew := rname !in st.lookup;
    st.(runId := st.runId + 1,
        replicateId := if db.corrected && !isNew then st.replicateId else repId,
        lookup := st.lookup[rname := repId],
        replicates := if isNew then st.replicates + [repRow] else st.replicates,
        runs := st.runs + [row],
        runIds := st.runIds + [st.runId + 1])
  }

  /** The inner loop over the runs of one sample. */
  function RunsOf(db: Db, st: State, sample: string, sd: Dict, runs: seq<Run>): Result<State>
  {
    if |runs| == 0 then Ok(st)
    else
      match RunsOf(db, st, sample, sd, runs[..|runs| - 1])
      case Err(m) => Err(m)
      case Ok(st') => RunStep(db, st', sample, sd, runs[|runs| - 1])
  }

  /** The sample's dictionary once its id and name are filled in. */
  function SampleDict(fields: Dict, sampleId: int, name: string): (d: Dict)
    ensures d.Keys == fields.Keys + {"sample_id", "sample_name"}
    ensures d["sample_id"] == VInt(sampleId) && d["sample_name"] == VStr(name)
    ensures forall k :: k in fields && k !in {"sample_id", "sample_name"} ==> d[k] == fields[k]
  {
    assert |"sample_id"| == 9 && |"sample_name"| == 11;
    fields["sample_id" := VInt(sampleId)]["sample_name" := VStr(name)]
  }

  /** One pass of the outer loop. */
  function SampleStep(db: Db, st: State, s: Sample): Result<State>
  {
    var id := if s.name in db.sampleNames then st.sampleId else st.sampleId + 1;
    var sd := SampleDict(s.fields, id, s.name);
    match Columns(db.sampleColumns, sd, s.name)
    case Err(m) => Err(m)
    case Ok(row) =>
      if s.runs.None? then Err("KeyError: 'runs'")
      else RunsOf(db, st.(sampleId := id, samples := st.samples + [row]), s.name, sd, s.runs.value)
  }

  /** `add_sample_info`: the rows to insert into the three tables and the
      run ids added, or the first exception raised (and nothing inserted). */
  function AddSampleInfoOf(db: Db, samples: seq<Sample>): Result<State>
  {
    if |samples| == 0 then Ok(Start(db))
    else
      match AddSampleInfoOf(db, samples[..|samples| - 1])
      case Err(m) => Err(m)
      case Ok(st) => SampleStep(db, st, samples[|samples| - 1])
  }

  method ApplyRun(db: Db, st: State, sample: string, sd: Dict, run: Run) returns (r: Result<State>)
    ensures r == RunStep(db, st, sample, sd, run)
  {
    if run.name in db.runNames {
      return Err(AlreadyAdded(run.name));
    }
    if "experiment_name" !in sd {
      return Err("KeyError: 'experiment_name'");
    }
    if "replicate_name" !in run.fields {
      return Err("KeyError: 'replicate_name'");
    }
    var runId := st.runId + 1;
    var rname := ReplicateName(sd["experiment_name"], sample, run.fields["replicate_name"]);
    var replicateId := st.replicateId;
    var lookup := st.lookup;
    var replicates := st.replicates;
    var isNew := rname !in lookup;
    var repId := if isNew then replicateId + 1 else lookup[rname];
    var d := RunDict(run.fields, run.name, runId, rname, st.sampleId, repId);
    if isNew {
      replicateId := replicateId + 1;
      var repRow := GetColumns(db.replicateColumns, d, rname);
      if repRow.Err? {
        return Err(repRow.msg);
      }
      replicates := replicates + [repRow.value];
      lookup := lookup[rname := replicateId];
    } else {
      assert lookup == st.lookup[rname := repId];
    }
    if !db.corrected {
      replicateId := lookup[rname];
    }
    var row := GetColumns(db.runColumns, d, run.name);
    if row.Err? {
      return Err(row.msg);
    }
    r := Ok(st.(runId := runId, replicateId := replicateId, lookup := lookup,
                replicates := replicates, runs := st.runs + [row.value],
                runIds := st.runIds + [runId]));
  }

  method AddRuns(db: Db, st0: State, sample: string, sd: Dict, runs: seq<Run>) returns (r: Result<State>)
    ensures r == RunsOf(db, st0, sample, sd, runs)
  {
    var st := st0;
    for j := 0 to |runs|
      invariant RunsOf(db, st0, sample, sd, runs[..j]) == Ok(st)
    {
      assert runs[..j + 1][..j] == runs[..j];
      r := ApplyRun(db, st, sample, sd, runs[j]);
      if r.Err? {
        RunsStayErr(db, st0, sample, sd, runs, j + 1);
        return;
      }
      st := r.value;
    }
    assert runs[..|runs|] == runs;
    r := Ok(st);
  }

  lemma {:induction false} RunsStayErr(db: Db, st: State, sample: string, sd: Dict, runs: seq<Run>, j: nat)
    requires j <= |runs| && RunsOf(db, st, sample, sd, runs[..j]).Err?
    ensures RunsOf(db, st, sample, sd, runs) == RunsOf(db, st, sample, sd, runs[..j])
    decreases |runs| - j
  {
    if j < |runs| {
      assert runs[..j + 1][..j] == runs[..j];
      RunsStayErr(db, st, sample, sd, runs, j + 1);
    } else {
      assert runs[..j] == runs;
    }
  }

  method AddSample(db: Db, st: State, s: Sample) returns (r: Result<State>)
    ensures r == SampleStep(db, st, s)
  {
    var id := st.sampleId;
    if s.name !in db.sampleNames {
      id := id + 1;
    }
    var sd := SampleDict(s.fields, id, s.name);
    var row := GetColumns(db.sampleColumns, sd, s.name);
    if row.Err? {
      return Err(row.msg);
    }
    if s.runs.None? {
      return Err("KeyError: 'runs'");
    }
    r := AddRuns(db, st.(sampleId := id, samples := st.samples + [row.value]), s.name, sd, s.runs.value);
  }

  method AddSampleInfo(db: Db, samples: seq<Sample>) returns (r: Result<State>)
    ensures r == AddSampleInfoOf(db, samples)
  {
    var st := Start(db);
    for i := 0 to |samples|
      invariant AddSampleInfoOf(db, samples[..i]) == Ok(st)
    {
      assert samples[..i + 1][..i] == samples[..i];
      r := AddSample(db, st, samples[i]);
      if r.Err? {
        SamplesStayErr(db, samples, i + 1);
        return;
      }
      st := r.value;
    }
    assert samples[..|samples|] == samples;
    r := Ok(st);
  }

  lemma {:induction false} SamplesStayErr(db: Db, samples: seq<Sample>, i: nat)
    requires i <= |samples| && AddSampleInfoOf(db, samples[..i]).Err?
    ensures AddSampleInfoOf(db, samples) == AddSampleInfoOf(db, samples[..i])
    decreases |samples| - i
  {
    if i < |samples| {
      assert samples[..i + 1][..i] == samples[..i];
      SamplesStayErr(db, samples, i + 1);
    } else {
      assert samples[..i] == samples;
    }
  }

  // ------------------------------------------------------------ invariants

  /** The run counter, the run ids and the run rows agree: the i-th run
      added has id `maxRunId + 1 + i`, and its row carries it. */
  ghost predicate RunIdsOk(db: Db, st: State)
  {
    st.runId == db.maxRunId + |st.runIds| && |st.runs| == |st.runIds| &&
    forall i :: 0 <= i < |st.runIds| ==>
      st.runIds[i] == db.maxRunId + 1 + i && IdRowOk(db.runColumns, "run_id", st.runs[i], st.runIds[i])
  }

  /** With the corrected counter, the j-th replicate row carries id
      `maxReplicateId + 1 + j`. */
  ghost predicate ReplicatesOk(db: Db, st: State)
  {
    db.corrected ==>
      st.replicateId == db.maxReplicateId + |st.replicates| &&
      forall j :: 0 <= j < |st.replicates| ==>
        IdRowOk(db.replicateColumns, "replicate_id", st.replicates[j], db.maxReplicateId + 1 + j)
  }

  /** A replicate name added by this call. */
  ghost predicate Added(db: Db, st: State, k: string)
  {
    k in st.lookup && k !in db.replicates
  }

  /** The lookup keeps the stored replicates; with the corrected counter,
      the names added have distinct ids above the stored maximum. */
  ghost predicate LookupOk(db: Db, st: State)
  {
    (forall k :: k in db.replicates ==> k in st.lookup && st.lookup[k] == db.replicates[k]) &&
    (db.corrected ==>
      (forall k :: Added(db, st, k) ==> db.maxReplicateId < st.lookup[k] <= st.replicateId) &&
      (forall k1, k2 :: Added(db, st, k1) && Added(db, st, k2) && k1 != k2 ==> st.lookup[k1] != st.lookup[k2]))
  }

  ghost predicate RunsInv(db: Db, st: State)
  {
    RunIdsOk(db, st) && ReplicatesOk(db, st) && LookupOk(db, st)
  }

  /** What a successful run step consists of. */
  lemma RunShape(db: Db, st: State, sample: string, sd: Dict, run: Run) returns (rname: string, repId: int, d: Dict)
    requires RunStep(db, st, sample, sd, run).Ok?
    ensures run.name !in db.runNames && "experiment_name" in sd && "replicate_name" in run.fields
    ensures rname == ReplicateName(sd["experiment_name"], sample, run.fields["replicate_name"])
    ensures repId == if rname !in st.lookup then st.replicateId + 1 else st.lookup[rname]
    ensures d == RunDict(run.fields, run.name, st.runId + 1, rname, st.sampleId, repId)
    ensures rname !in st.lookup ==> Columns(db.replicateColumns, d, rname).Ok?
    ensures Columns(db.runColumns, d, run.name).Ok?
    ensures RunStep(db, st, sample, sd, run) ==
      Ok(Advance(db, st, rname, repId,
                 if rname !in st.lookup then Columns(db.replicateColumns, d, rname).value else [],
                 Columns(db.runColumns, d, run.name).value))
  {
    rname := ReplicateName(sd["experiment_name"], sample, run.fields["replicate_name"]);
    repId := if rname !in st.lookup then st.replicateId + 1 else st.lookup[rname];
    d := RunDict(run.fields, run.name, st.runId + 1, rname, st.sampleId, repId);
  }

  lemma RunFacts(db: Db, st: State, sample: string, sd: Dict, run: Run) returns (st': State)
    requires RunStep(db, st, sample, sd, run).Ok?
    ensures st' == RunStep(db, st, sample, sd, run).value
    ensures run.name !in db.runNames
    ensures st'.sampleId == st.sampleId && st'.samples == st.samples
    ensures st'.runId == st.runId + 1 && st'.runIds == st.runIds + [st.runId + 1]
  {
    var rname, repId, d := RunShape(db, st, sample, sd, run);
    st' := RunStep(db, st, sample, sd, run).value;
  }

  lemma AdvanceKeepsInv(db: Db, st: State, rname: string, repId: int, repRow: seq<Val>, row: seq<Val>)
    requires RunsInv(db, st)
    requires repId == if rname !in st.lookup then st.replicateId + 1 else st.lookup[rname]
    requires IdRowOk(db.runColumns, "run_id", row, st.runId + 1)
    requires rname !in st.lookup ==> IdRowOk(db.replicateColumns, "replicate_id", repRow, repId)
    ensures RunsInv(db, Advance(db, st, rname, repId, repRow, row))
  {
    var st' := Advance(db, st, rname, repId, repRow, row);
    assert RunIdsOk(db, st');
    assert ReplicatesOk(db, st');
    assert LookupOk(db, st');
  }

  lemma StepKeepsInv(db: Db, st: State, sample: string, sd: Dict, run: Run)
    requires RunsInv(db, st) && RunStep(db, st, sample, sd, run).Ok?
    ensures RunsInv(db, RunStep(db, st, sample, sd, run).value)
  {
    var rname, repId, d := RunShape(db, st, sample, sd, run);
    IdRow(db.runColumns, d, run.name, "run_id", st.runId + 1);
    if rname !in st.lookup {
      IdRow(db.replicateColumns, d, rname, "replicate_id", repId);
    }
    AdvanceKeepsInv(db, st, rname, repId,
                    if rname !in st.lookup then Columns(db.replicateColumns, d, rname).value else [],
                    Columns(db.runColumns, d, run.name).value);
  }

  lemma {:induction false} RunsKeepInv(db: Db, st: State, sample: string, sd: Dict, runs: seq<Run>) returns (st': State)
    requires RunsInv(db, st) && RunsOf(db, st, sample, sd, runs).Ok?
    ensures st' == RunsOf(db, st, sample, sd, runs).value
    ensures RunsInv(db, st')
    ensures st'.sampleId == st.sampleId && st'.samples == st.samples
    ensures |st'.runIds| == |st.runIds| + |runs|
    ensures forall j :: 0 <= j < |runs| ==> runs[j].name !in db.runNames
  {
    if |runs| == 0 {
      st' := st;
    } else {
      var init := runs[..|runs| - 1];
      var mid := RunsKeepInv(db, st, sample, sd, init);
      StepKeepsInv(db, mid, sample, sd, runs[|runs| - 1]);
      st' := RunFacts(db, mid, sample, sd, runs[|runs| - 1]);
      forall j | 0 <= j < |init|
        ensures runs[j].name !in db.runNames
      {
        assert runs[j] == init[j];
      }
    }
  }

  /** How many of `samples` are not yet in the database. */
  function NewSamples(db: Db, samples: seq<Sample>): (n: nat)
    ensures n <= |samples|
  {
    if |samples| == 0 then 0
    else NewSamples(db, samples[..|samples| - 1]) + (if samples[|samples| - 1].name in db.sampleNames then 0 else 1)
  }

  /** How many runs `samples` list. */
  function TotalRuns(samples: seq<Sample>): nat
  {
    if |samples| == 0 then 0
    else
      var s := samples[|samples| - 1];
      TotalRuns(samples[..|samples| - 1]) + (if s.runs.Some? then |s.runs.value| else 0)
  }

  /** The j-th sample row carries the sample counter as it stood after
      the first j + 1 samples. */
  ghost predicate SamplesOk(db: Db, st: State, done: seq<Sample>)
  {
    st.sampleId == db.maxSampleId + NewSamples(db, done) && |st.samples| == |done| &&
    |st.runIds| == TotalRuns(done) &&
    forall j :: 0 <= j < |done| ==>
      IdRowOk(db.sampleColumns, "sample_id", st.samples[j], db.maxSampleId + NewSamples(db, done[..j + 1]))
  }

  lemma SampleKeepsInv(db: Db, st: State, done: seq<Sample>, s: Sample) returns (st': State)
    requires RunsInv(db, st) && SamplesOk(db, st, done) && SampleStep(db, st, s).Ok?
    ensures st' == SampleStep(db, st, s).value
    ensures RunsInv(db, st') && SamplesOk(db, st', done + [s])
    ensures s.runs.Some? && forall j :: 0 <= j < |s.runs.value| ==> s.runs.value[j].name !in db.runNames
  {
    var id := if s.name in db.sampleNames then st.sampleId else st.sampleId + 1;
    var sd := SampleDict(s.fields, id, s.name);
    var row := Columns(db.sampleColumns, sd, s.name).value;
    IdRow(db.sampleColumns, sd, s.name, "sample_id", id);
    var mid := st.(sampleId := id, samples := st.samples + [row]);
    InvIgnoresSamples(db, st, id, row);
    assert SampleStep(db, st, s) == RunsOf(db, mid, s.name, sd, s.runs.value);
    st' := RunsKeepInv(db, mid, s.name, sd, s.runs.value);
    SamplesOkSnoc(db, st, st', done, s, row);
  }

  lemma InvIgnoresSamples(db: Db, st: State, id: int, row: seq<Val>)
    requires RunsInv(db, st)
    ensures RunsInv(db, st.(sampleId := id, samples := st.samples + [row]))
  {
    var mid := st.(sampleId := id, samples := st.samples + [row]);
    assert RunIdsOk(db, mid);
    assert ReplicatesOk(db, mid);
    assert LookupOk(db, mid);
  }

  lemma SamplesOkSnoc(db: Db, st: State, st': State, done: seq<Sample>, s: Sample, row: seq<Val>)
    requires SamplesOk(db, st, done) && s.runs.Some?
    requires st'.sampleId == (if s.name in db.sampleNames then st.sampleId else st.sampleId + 1)
    requires st'.samples == st.samples + [row] && |st'.runIds| == |st.runIds| + |s.runs.value|
    requires IdRowOk(db.sampleColumns, "sample_id", row, st'.sampleId)
    ensures SamplesOk(db, st', done + [s])
  {
    var all := done + [s];
    assert all[..|all| - 1] == done;
    assert all[..|all|] == all;
    assert NewSamples(db, all) == NewSamples(db, done) + (if s.name in db.sampleNames then 0 else 1);
    assert TotalRuns(all) == TotalRuns(done) + |s.runs.value|;
    forall j | 0 <= j < |all|
      ensures IdRowOk(db.sampleColumns, "sample_id", st'.samples[j], db.maxSampleId + NewSamples(db, all[..j + 1]))
    {
      if j < |done| {
        assert all[..j + 1] == done[..j + 1];
        assert st'.samples[j] == st.samples[j];
      } else {
        assert st'.samples[j] == row;
      }
    }
  }

  lemma {:induction false} SamplesKeepInv(db: Db, samples: seq<Sample>) returns (st: State)
    requires AddSampleInfoOf(db, samples).Ok?
    ensures st == AddSampleInfoOf(db, samples).value
    ensures RunsInv(db, st) && SamplesOk(db, st, samples)
    ensures forall i :: 0 <= i < |samples| ==>
      samples[i].runs.Some? && forall j :: 0 <= j < |samples[i].runs.value| ==> samples[i].runs.value[j].name !in db.runNames
  {
    if |samples| == 0 {
      st := Start(db);
    } else {
      var init := samples[..|samples| - 1];
      var mid := SamplesKeepInv(db, init);
      st := SampleKeepsInv(db, mid, init, samples[|samples| - 1]);
      assert init + [samples[|samples| - 1]] == samples;
    }
  }

  // ------------------------------------------------------------ properties

  /** A successful call never meets a run name the database holds; so a
      run name already stored makes the call raise. */
  lemma StoredRunRejected(db: Db, samples: seq<Sample>, i: nat, j: nat)
    requires i < |samples| && samples[i].runs.Some? && j < |samples[i].runs.value|
    requires samples[i].runs.value[j].name in db.runNames
    ensures AddSampleInfoOf(db, samples).Err?
  {
    if AddSampleInfoOf(db, samples).Ok? {
      var st := SamplesKeepInv(db, samples);
    }
  }

  /** Every run gets a fresh id, one more than the previous, in iteration
      order, and `run_ids_added` lists them; each run row carries its id. */
  lemma RunIdsFresh(db: Db, samples: seq<Sample>) returns (st: State)
    requires AddSampleInfoOf(db, samples).Ok?
    ensures AddSampleInfoOf(db, samples) == Ok(st)
    ensures |st.runIds| == TotalRuns(samples) && RunIdsOk(db, st)
  {
    st := SamplesKeepInv(db, samples);
  }

  /** One sample row per sample; the counter rises only for names the
      database does not hold, and each row carries the counter as it then
      stood. */
  lemma SampleIds(db: Db, samples: seq<Sample>) returns (st: State)
    requires AddSampleInfoOf(db, samples).Ok?
    ensures AddSampleInfoOf(db, samples) == Ok(st)
    ensures SamplesOk(db, st, samples)
  {
    st := SamplesKeepInv(db, samples);
  }

  /** With the corrected counter, the replicate rows carry the consecutive
      ids `maxReplicateId + 1, …`, and distinct new replicate names have
      distinct ids, all above every id the database holds. */
  lemma ReplicateIdsFresh(db: Db, samples: seq<Sample>) returns (st: State)
    requires db.corrected && AddSampleInfoOf(db, samples).Ok?
    requires forall k :: k in db.replicates ==> db.replicates[k] <= db.maxReplicateId
    ensures AddSampleInfoOf(db, samples) == Ok(st)
    ensures ReplicatesOk(db, st) && LookupOk(db, st)
    ensures forall k1, k2 :: Added(db, st, k1) && k2 in db.replicates ==> st.lookup[k1] != st.lookup[k2]
  {
    st := SamplesKeepInv(db, samples);
  }

  /** A run whose replicate name is known reuses its id and adds no
      replicate row; an unknown name gets the counter plus one and one row. */
  lemma ReplicateShared(db: Db, st: State, sample: string, sd: Dict, run: Run)
    requires RunStep(db, st, sample, sd, run).Ok?
    ensures var st' := RunStep(db, st, sample, sd, run).value;
      var rname := ReplicateName(sd["experiment_name"], sample, run.fields["replicate_name"]);
      rname in st'.lookup &&
      (rname in st.lookup ==> st'.lookup == st.lookup && st'.replicates == st.replicates) &&
      (rname !in st.lookup ==> st'.lookup == st.lookup[rname := st.replicateId + 1] &&
                               |st'.replicates| == |st.replicates| + 1)
  {
  }

  /** The run row holds the run's values in column order, with its own id,
      the sample's id, the replicate's id and the full replicate name. */
  lemma RunRow(db: Db, st: State, sample: string, sd: Dict, run: Run)
    requires RunStep(db, st, sample, sd, run).Ok?
    ensures var st' := RunStep(db, st, sample, sd, run).value;
      var rname := ReplicateName(sd["experiment_name"], sample, run.fields["replicate_name"]);
      var d := RunDict(run.fields, run.name, st.runId + 1, rname, st.sampleId, st'.lookup[rname]);
      Columns(db.runColumns, d, run.name) == Ok(st'.runs[|st.runs|]) &&
      IdRowOk(db.runColumns, "sample_id", st'.runs[|st.runs|], st.sampleId) &&
      IdRowOk(db.runColumns, "replicate_id", st'.runs[|st.runs|], st'.lookup[rname])
  {
    var rname, repId, d := RunShape(db, st, sample, sd, run);
    IdRow(db.runColumns, d, run.name, "sample_id", st.sampleId);
    IdRow(db.runColumns, d, run.name, "replicate_id", repId);
  }

  // ------------------------------------------------------------ the counter reset

  const ResetDb := Db(0, 0, 1, {}, {}, map["e-s-A" := 1], [], ["replicate_id"], [], false)

  const ResetSamples := [Sample("s", map["experiment_name" := VStr("e")], Some([
    Run("r1", map["replicate_name" := VStr("B")]),
    Run("r2", map["replicate_name" := VStr("A")]),
    Run("r3", map["replicate_name" := VStr("C")])]))]

  /** A run of a replicate not yet known, under a run table without
      columns and a replicate table holding only the id. */
  lemma NewReplicateStep(db: Db, st: State, sample: string, sd: Dict, run: Run, rname: string)
    requires run.name !in db.runNames && "experiment_name" in sd && "replicate_name" in run.fields
    requires rname == ReplicateName(sd["experiment_name"], sample, run.fields["replicate_name"])
    requires rname !in st.lookup && db.runColumns == [] && db.replicateColumns == ["replicate_id"]
    ensures RunStep(db, st, sample, sd, run) ==
      Ok(st.(runId := st.runId + 1, replicateId := st.replicateId + 1,
             lookup := st.lookup[rname := st.replicateId + 1],
             replicates := st.replicates + [[VInt(st.replicateId + 1)]],
             runs := st.runs + [[]], runIds := st.runIds + [st.runId + 1]))
  {
    var d := RunDict(run.fields, run.name, st.runId + 1, rname, st.sampleId, st.replicateId + 1);
    assert db.replicateColumns[..0] == [];
    assert Columns(db.replicateColumns[..0], d, rname) == Ok([]);
    assert db.replicateColumns[|db.replicateColumns| - 1] == "replicate_id";
    assert "replicate_id" in d && d["replicate_id"] == VInt(st.replicateId + 1);
    assert [] + [VInt(st.replicateId + 1)] == [VInt(st.replicateId + 1)];
    assert Columns(db.replicateColumns, d, rname) == Ok([VInt(st.replicateId + 1)]);
  }

  /** A run of a replicate already known, under the same tables. */
  lemma KnownReplicateStep(db: Db, st: State, sample: string, sd: Dict, run: Run, rname: string)
    requires run.name !in db.runNames && "experiment_name" in sd && "replicate_name" in run.fields
    requires rname == ReplicateName(sd["experiment_name"], sample, run.fields["replicate_name"])
    requires rname in st.lookup && db.runColumns == []
    ensures RunStep(db, st, sample, sd, run) ==
      Ok(st.(runId := st.runId + 1,
             replicateId := if db.corrected then st.replicateId else st.lookup[rname],
             runs := st.runs + [[]], runIds := st.runIds + [st.runId + 1]))
  {
    assert st.lookup[rname := st.lookup[rname]] == st.lookup;
  }

  lemma ResetNames()
    ensures ReplicateName(VStr("e"), "s", VStr("A")) == "e-s-A"
    ensures ReplicateName(VStr("e"), "s", VStr("B")) == "e-s-B"
    ensures ReplicateName(VStr("e"), "s", VStr("C")) == "e-s-C"
    ensures "e-s-B" != "e-s-A" && "e-s-C" != "e-s-A" && "e-s-C" != "e-s-B"
  {
    assert "e-s-B"[4] != "e-s-A"[4];
    assert "e-s-C"[4] == 'C';
  }

  /** The tables and the sample dictionary of `ResetSamples`. */
  predicate ResetSetting(db: Db, sd: Dict, runs: seq<Run>)
  {
    db.runNames == {} && db.runColumns == [] && db.replicateColumns == ["replicate_id"] &&
    "experiment_name" in sd && sd["experiment_name"] == VStr("e") &&
    runs == ResetSamples[0].runs.value
  }

  /** The three runs of `ResetSamples` step by step: the first allocates
      `e-s-B`, the second reuses the stored replicate `e-s-A` (as written
      the counter then drops back to its id 1, corrected it stays at 2), and
      the third allocates `e-s-C`. */
  lemma ResetFirst(db: Db, st1: State, sd: Dict, runs: seq<Run>) returns (st2: State)
    requires ResetSetting(db, sd, runs)
    requires st1.lookup == map["e-s-A" := 1] && st1.replicateId == 1 && st1.replicates == []
    ensures RunsOf(db, st1, "s", sd, runs[..1]) == Ok(st2)
    ensures st2.lookup == st1.lookup["e-s-B" := 2] && st2.replicateId == 2 && st2.replicates == [[VInt(2)]]
  {
    ResetNames();
    assert runs[0].fields["replicate_name"] == VStr("B");
    NewReplicateStep(db, st1, "s", sd, runs[0], "e-s-B");
    st2 := RunStep(db, st1, "s", sd, runs[0]).value;
    assert runs[..1][..0] == [];
  }

  lemma ResetSecond(db: Db, st1: State, sd: Dict, runs: seq<Run>) returns (st3: State)
    requires ResetSetting(db, sd, runs)
    requires st1.lookup == map["e-s-A" := 1] && st1.replicateId == 1 && st1.replicates == []
    ensures RunsOf(db, st1, "s", sd, runs[..2]) == Ok(st3)
    ensures st3.lookup == st1.lookup["e-s-B" := 2] && st3.replicates == [[VInt(2)]]
    ensures st3.replicateId == if db.corrected then 2 else 1
  {
    var st2 := ResetFirst(db, st1, sd, runs);
    ResetNames();
    assert runs[1].fields["replicate_name"] == VStr("A");
    KnownReplicateStep(db, st2, "s", sd, runs[1], "e-s-A");
    st3 := RunStep(db, st2, "s", sd, runs[1]).value;
    assert runs[..2][..1] == runs[..1];
  }

  lemma ResetRuns(db: Db, st1: State, sd: Dict, runs: seq<Run>) returns (st: State)
    requires ResetSetting(db, sd, runs)
    requires st1.lookup == map["e-s-A" := 1] && st1.replicateId == 1 && st1.replicates == []
    ensures RunsOf(db, st1, "s", sd, runs) == Ok(st)
    ensures st.replicates == [[VInt(2)], [VInt(if db.corrected then 3 else 2)]]
  {
    var st3 := ResetSecond(db, st1, sd, runs);
    ResetNames();
    assert runs[2].fields["replicate_name"] == VStr("C");
    NewReplicateStep(db, st3, "s", sd, runs[2], "e-s-C");
    st := RunStep(db, st3, "s", sd, runs[2]).value;
    assert |runs| == 3;
    assert runs[..|runs| - 1] == runs[..2];
    assert RunsOf(db, st1, "s", sd, runs) == RunStep(db, st3, "s", sd, runs[2]);
  }

  lemma ResetTrace(c: bool) returns (st: State)
    ensures AddSampleInfoOf(ResetDb.(corrected := c), ResetSamples) == Ok(st)
    ensures st.replicates == if c then [[VInt(2)], [VInt(3)]] else [[VInt(2)], [VInt(2)]]
  {
    var db := ResetDb.(corrected := c);
    var s := ResetSamples[0];
    var sd := SampleDict(s.fields, 1, "s");
    assert |"experiment_name"| == 15;
    assert sd["experiment_name"] == VStr("e");
    var st1 := Start(db).(sampleId := 1, samples := Start(db).samples + [[]]);
    assert SampleStep(db, Start(db), s) == RunsOf(db, st1, "s", sd, s.runs.value);
    st := ResetRuns(db, st1, sd, s.runs.value);
    assert ResetSamples[..0] == [];
    assert AddSampleInfoOf(db, ResetSamples) == SampleStep(db, Start(db), s);
  }

  /** As written, a stored replicate reused by the second run pulls the
      counter back to 1, so the new replicates of the first and third runs
      are both given id 2; corrected, they get 2 and 3. */
  lemma CounterResetExample()
    ensures AddSampleInfoOf(ResetDb, ResetSamples).Ok?
    ensures AddSampleInfoOf(ResetDb, ResetSamples).value.replicates == [[VInt(2)], [VInt(2)]]
    ensures AddSampleInfoOf(ResetDb.(corrected := true), ResetSamples).Ok?
    ensures AddSampleInfoOf(ResetDb.(corrected := true), ResetSamples).value.replicates == [[VInt(2)], [VInt(3)]]
  {
    var a := ResetTrace(false);
    assert ResetDb.(corrected := false) == ResetDb;
    var b := ResetTrace(true);
  }
}
