/** DataPipeline: the registry that turns configured steps into transforms,
    the build loop over the configuration, and application of the composition. */
module Pipeline {
  import opened Frames
  import opened Transforms

  const CHOOSE_COLUMNS: string := "choose_columns"
  const DELETE_OUTLIER_IN_VOLUME: string := "delete_outlier_in_volume"
  const CONCAT_DATAFRAMES: string := "concat_dataframes"

  /** A parsed configuration value. */
  datatype Param = Names(names: seq<string>) | Int(i: int) | Str(s: string)

  /** One entry of pre_processing_steps: {step: <name>, params: {...}}. */
  datatype Step = Step(step: string, params: map<string, Param>)

  predicate Registered(name: string) {
    name == CHOOSE_COLUMNS || name == DELETE_OUTLIER_IN_VOLUME || name == CONCAT_DATAFRAMES
  }

  /** The single keyword argument of each transform's constructor. */
  function KeywordOf(name: string): string
    requires Registered(name)
  {
    if name == CHOOSE_COLUMNS then "columns"
    else if name == DELETE_OUTLIER_IN_VOLUME then "volume_threshold"
    else "join_type"
  }

  /** The configured value is of the kind the constructor's parameter holds. */
  predicate Fits(name: string, p: Param)
    requires Registered(name)
  {
    if name == CHOOSE_COLUMNS then p.Names?
    else if name == DELETE_OUTLIER_IN_VOLUME then p.Int?
    else p.Str?
  }

  /** The step name the registry maps to this transform's constructor. */
  function StepName(t: Transform): (name: string)
    ensures Registered(name)
  {
    match t
    case ChooseCols(_) => CHOOSE_COLUMNS
    case DeleteOutlierInVolume(_) => DELETE_OUTLIER_IN_VOLUME
    case ConcatDataFrames(_) => CONCAT_DATAFRAMES
  }

  /** The keyword arguments this transform was constructed with. */
  function ParamsOf(t: Transform): map<string, Param> {
    match t
    case ChooseCols(cols) => map["columns" := Names(cols)]
    case DeleteOutlierInVolume(threshold) => map["volume_threshold" := Int(threshold)]
    case ConcatDataFrames(join) => map["join_type" := Str(join)]
  }

  /** One branch of the if/elif chain: Cls(**params) for a registered name,
      nothing for any other name. */
  function MakeTransform(s: Step): (r: Result<Option<Transform>>)
    ensures !Registered(s.step) ==> r == Ok(None)
    ensures Registered(s.step) ==>
              (r.Ok? <==> s.params.Keys == {KeywordOf(s.step)} && Fits(s.step, s.params[KeywordOf(s.step)]))
    ensures Registered(s.step) && r.Ok? ==>
              r.value.Some? && s == Step(StepName(r.value.value), ParamsOf(r.value.value))
    ensures r.Err? ==> r.error == InvalidParams(s.step)
  {
    if !Registered(s.step) then Ok(None)
    else
      var key := KeywordOf(s.step);
      if s.params.Keys != {key} || !Fits(s.step, s.params[key]) then Err(InvalidParams(s.step))
      else
        var t :=
          if s.step == CHOOSE_COLUMNS then ChooseCols(s.params[key].names)
          else if s.step == DELETE_OUTLIER_IN_VOLUME then DeleteOutlierInVolume(s.params[key].i)
          else ConcatDataFrames(s.params[key].s);
        assert s.params == ParamsOf(t);
        Ok(Some(t))
  }

  /** Constructing from a transform's own name and parameters gives it back. */
  lemma MakeTransformInverts(t: Transform)
    ensures MakeTransform(Step(StepName(t), ParamsOf(t))) == Ok(Some(t))
  {
  }

  /** The state _build_pipeline leaves: the transforms appended so far and the
      error that stopped it, if any. */
  datatype Built = Built(transforms: seq<Transform>, failure: Option<Error>)

  /** The build loop as a function of the configured steps, step by step. */
  function Build(steps: seq<Step>): (b: Built)
    ensures |b.transforms| <= |steps|
  {
    if steps == [] then Built([], None)
    else
      var prev := Build(steps[..|steps| - 1]);
      if prev.failure.Some? then prev
      else
        match MakeTransform(steps[|steps| - 1])
        case Err(e) => Built(prev.transforms, Some(e))
        case Ok(None) => prev
        case Ok(Some(t)) => Built(prev.transforms + [t], None)
  }

  /** The steps whose name is in the registry, in configuration order. */
  function RegisteredSteps(steps: seq<Step>): seq<Step> {
    if steps == [] then []
    else
      RegisteredSteps(steps[..|steps| - 1])
      + (if Registered(steps[|steps| - 1].step) then [steps[|steps| - 1]] else [])
  }

  /** Building a + b is building a and then, unless a failed, building b after it. */
  lemma {:induction false} BuildAppend(a: seq<Step>, b: seq<Step>)
    ensures Build(a + b) == if Build(a).failure.Some? then Build(a)
                            else Built(Build(a).transforms + Build(b).transforms, Build(b).failure)
  {
    if b == [] {
      assert a + b == a;
    } else {
      var init := b[..|b| - 1];
      assert (a + b)[..|a + b| - 1] == a + init;
      assert (a + b)[|a + b| - 1] == b[|b| - 1];
      BuildAppend(a, init);
    }
  }

  /** A step with an unregistered name adds nothing and raises nothing. */
  lemma BuildSkipsUnregistered(a: seq<Step>, u: Step, b: seq<Step>)
    requires !Registered(u.step)
    ensures Build(a + [u] + b) == Build(a + b)
  {
    assert [u][..0] == [];
    assert Build([u]) == Built([], None);
    BuildAppend(a, [u]);
    BuildAppend(a + [u], b);
    BuildAppend(a, b);
  }

  /** A successful build holds one transform per registered step, in order,
      each constructed from that step. */
  lemma {:induction false} BuildRegistered(steps: seq<Step>)
    requires Build(steps).failure.None?
    ensures |Build(steps).transforms| == |RegisteredSteps(steps)|
    ensures forall i :: 0 <= i < |RegisteredSteps(steps)| ==>
              MakeTransform(RegisteredSteps(steps)[i]) == Ok(Some(Build(steps).transforms[i]))
  {
    if steps != [] {
      var init := steps[..|steps| - 1];
      BuildRegistered(init);
    }
  }

  /** The build fails exactly when some step fails to construct; it then
      reports the first such step's error and keeps what came before it. */
  lemma {:induction false} BuildFailure(steps: seq<Step>)
    ensures Build(steps).failure.None? <==> forall i :: 0 <= i < |steps| ==> MakeTransform(steps[i]).Ok?
    ensures Build(steps).failure.Some? ==>
              exists i :: 0 <= i < |steps| && MakeTransform(steps[i]) == Err(Build(steps).failure.value)
                          && (forall j :: 0 <= j < i ==> MakeTransform(steps[j]).Ok?)
                          && Build(steps).transforms == Build(steps[..i]).transforms
  {
    if steps != [] {
      var n := |steps| - 1;
      var init := steps[..n];
      BuildFailure(init);
      assert forall j :: 0 <= j < n ==> steps[j] == init[j];
      if Build(init).failure.Some? {
        var i :| 0 <= i < n && MakeTransform(init[i]) == Err(Build(init).failure.value)
                 && (forall j :: 0 <= j < i ==> MakeTransform(init[j]).Ok?)
                 && Build(init).transforms == Build(init[..i]).transforms;
        assert init[..i] == steps[..i];
      } else if MakeTransform(steps[n]).Err? {
        assert steps[..n] == init;
      }
    }
  }

  /** A configuration without registered steps builds the empty composition,
      which returns its input unchanged. */
  lemma {:induction false} UnregisteredStepsAreIdentity(steps: seq<Step>, d: Data)
    requires forall i :: 0 <= i < |steps| ==> !Registered(steps[i].step)
    requires ValidData(d)
    ensures Build(steps) == Built([], None)
    ensures Run(Build(steps).transforms, d) == Ok(d)
  {
    if steps != [] {
      var init := steps[..|steps| - 1];
      assert forall i :: 0 <= i < |init| ==> init[i] == steps[i];
      UnregisteredStepsAreIdentity(init, d);
    }
  }

  class DataPipeline {
    /** pre_processing_steps of the configuration, already parsed. */
    const steps: seq<Step>
    var transformations: seq<Transform>
    /** composed_transforms is not None. Compose keeps a reference to the
        transformations list itself, so the composition runs its current contents. */
    var composed: bool

    /** The exception the build raised, if any. In Python it escapes from
        __init__; here the object keeps it, stays uncomposed, and apply refuses. */
    var failure: Option<Error>

    /** __init__: empty transformations, no composition, then the build. */
    constructor (steps: seq<Step>)
      ensures this.steps == steps
      ensures transformations == Build(steps).transforms
      ensures failure == Build(steps).failure
      ensures composed <==> failure.None?
    {
      this.steps := steps;
      transformations := [];
      composed := false;
      failure := None;
      new;
      failure := BuildPipeline();
    }

    /** _build_pipeline: append one transform per registered step, in order;
        stop at the first constructor that rejects its parameters; compose
        only when every step went through. */
    method BuildPipeline() returns (raised: Option<Error>)
      modifies this`transformations, this`composed
      ensures transformations == old(transformations) + Build(steps).transforms
      ensures raised == Build(steps).failure
      ensures composed == (old(composed) || raised.None?)
    {
      var i := 0;
      while i < |steps|
        invariant 0 <= i <= |steps|
        invariant Build(steps[..i]).failure.None?
        invariant transformations == old(transformations) + Build(steps[..i]).transforms
        invariant composed == old(composed)
      {
        assert steps[..i + 1][..i] == steps[..i];
        var made := MakeTransform(steps[i]);
        if made.Err? {
          BuildAppend(steps[..i + 1], steps[i + 1..]);
          assert steps[..i + 1] + steps[i + 1..] == steps;
          return Some(made.error);
        }
        if made.value.Some? {
          transformations := transformations + [made.value.value];
        }
        i := i + 1;
      }
      assert steps[..i] == steps;
      composed := true;
      return None;
    }

    /** apply: refuse when nothing was composed, otherwise run every transform
        left to right, stopping at the first error. */
    method Apply(d: Data) returns (r: Result<Data>)
      requires ValidData(d)
      ensures !composed ==> r == Err(PipelineNotBuilt)
      ensures composed ==> r == Run(transformations, d)
    {
      if !composed {
        return Err(PipelineNotBuilt);
      }
      var current := d;
      var i := 0;
      assert transformations[0..] == transformations;
      while i < |transformations|
        invariant 0 <= i <= |transformations|
        invariant ValidData(current)
        invariant Run(transformations[i..], current) == Run(transformations, d)
      {
        assert transformations[i..][0] == transformations[i];
        assert transformations[i..][1..] == transformations[i + 1..];
        var next := ApplyTransform(transformations[i], current);
        if next.Err? {
          return Err(next.error);
        }
        current := next.value;
        i := i + 1;
      }
      return Ok(current);
    }
  }
}
