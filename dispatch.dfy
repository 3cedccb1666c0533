/** `Datatables.of(...source)` of src/datatables.ts: the registered engines
    are tried in insertion order and the first one that accepts the source
    builds the table. */
module Dispatch {
  import opened Wrappers
  import opened Values

  /** A registered engine as seen through `typeof`: each of its static
      `canCreate` and `create` members is either a function or something
      else (`None`). `T` is what `create` builds. */
  datatype Engine<T> = Engine(canCreate: Option<seq<Value> -> Value>, create: Option<seq<Value> -> T>)

  const NoEngine: string := "No available engine run"

  /** `canCreate` is a function and returns a truthy value for the source. */
  predicate Claims<T>(e: Engine<T>, source: seq<Value>) {
    e.canCreate.Some? && Truthy(e.canCreate.value(source))
  }

  /** The engine claims the source and can also build it. */
  predicate Accepts<T>(e: Engine<T>, source: seq<Value>) {
    Claims(e, source) && e.create.Some?
  }

  function Of<T>(engines: seq<Engine<T>>, source: seq<Value>): (r: Result<T>)
    ensures r.Err? ==> r.message == NoEngine
  {
    if engines == [] then Err(NoEngine)
    else if Accepts(engines[0], source) then Ok(engines[0].create.value(source))
    else Of(engines[1..], source)
  }

  /** The first accepting engine builds the table; those before it, including
      ones that claim the source but have no `create`, are passed over. */
  lemma {:induction false} FirstAcceptingWins<T>(engines: seq<Engine<T>>, source: seq<Value>, i: nat)
    requires i < |engines| && Accepts(engines[i], source)
    requires forall j :: 0 <= j < i ==> !Accepts(engines[j], source)
    ensures Of(engines, source) == Ok(engines[i].create.value(source))
  {
    if i > 0 {
      assert !Accepts(engines[0], source);
      FirstAcceptingWins(engines[1..], source, i - 1);
    }
  }

  /** `of` throws exactly when no engine accepts the source. */
  lemma {:induction false} ThrowsIffNoneAccepts<T>(engines: seq<Engine<T>>, source: seq<Value>)
    ensures Of(engines, source).Err? <==> forall j :: 0 <= j < |engines| ==> !Accepts(engines[j], source)
  {
    if engines != [] && !Accepts(engines[0], source) {
      ThrowsIffNoneAccepts(engines[1..], source);
      assert forall j :: 1 <= j < |engines| ==> engines[j] == engines[1..][j - 1];
    }
  }

  /** A result always comes from some accepting engine. */
  lemma {:induction false} ResultFromAcceptingEngine<T>(engines: seq<Engine<T>>, source: seq<Value>)
    requires Of(engines, source).Ok?
    ensures exists i :: 0 <= i < |engines| && Accepts(engines[i], source)
                        && Of(engines, source).value == engines[i].create.value(source)
  {
    if !Accepts(engines[0], source) {
      ResultFromAcceptingEngine(engines[1..], source);
      var i :| 0 <= i < |engines[1..]| && Accepts(engines[1..][i], source)
               && Of(engines[1..], source).value == engines[1..][i].create.value(source);
      assert engines[i + 1] == engines[1..][i];
    } else {
      assert Accepts(engines[0], source);
    }
  }
}
