/** The prediction store (frontend/src/components/predictions-provider.tsx): a map from
    match id to a pair of probabilities, changed by save and clear, and written to
    storage only once the stored map has been loaded. Storage is an opaque write of the
    whole map; the model records the maps written, in order. */
module Predictions {
  import opened Wrappers

  datatype Prediction = Prediction(teamA: real, teamB: real)

  type Store = map<string, Prediction>

  /** `savePrediction`'s update: `{ ...prev, [matchId]: prediction }`. */
  function SavePrediction(prev: Store, matchId: string, prediction: Prediction): (r: Store)
    ensures matchId in r && r[matchId] == prediction
    ensures r.Keys == prev.Keys + {matchId}
    ensures forall k :: k in prev && k != matchId ==> r[k] == prev[k]
  {
    prev[matchId := prediction]
  }

  /** `clearPrediction`'s update: a copy without `matchId`. */
  function ClearPrediction(prev: Store, matchId: string): (r: Store)
    ensures matchId !in r
    ensures r.Keys == prev.Keys - {matchId}
    ensures forall k :: k in r ==> r[k] == prev[k]
  {
    prev - {matchId}
  }

  /** Clearing an id that has no prediction changes nothing. */
  lemma ClearAbsent(prev: Store, matchId: string)
    requires matchId !in prev
    ensures ClearPrediction(prev, matchId) == prev
  {
  }

  /** Saving for an id without a prediction and clearing it again restores the map. */
  lemma SaveThenClear(prev: Store, matchId: string, prediction: Prediction)
    requires matchId !in prev
    ensures ClearPrediction(SavePrediction(prev, matchId, prediction), matchId) == prev
  {
  }

  /** A second save for the same id replaces the first. */
  lemma SaveOverwrites(prev: Store, matchId: string, first: Prediction, second: Prediction)
    ensures SavePrediction(SavePrediction(prev, matchId, first), matchId, second) ==
            SavePrediction(prev, matchId, second)
  {
  }

  /** `PredictionsProvider`'s state, and the maps its persistence effect has written. */
  class PredictionsProvider {
    var predictions: Store
    var isLoaded: bool
    var written: seq<Store>

    /** Before the load nothing is written; after it, storage holds the current map. */
    ghost predicate Valid()
      reads this
    {
      if isLoaded then written != [] && written[|written| - 1] == predictions else written == []
    }

    /** The first render: an empty map, not loaded; the persistence effect writes nothing. */
    constructor ()
      ensures Valid() && predictions == map[] && !isLoaded && written == []
    {
      predictions := map[];
      isLoaded := false;
      written := [];
    }

    /** The persistence effect, run after every change of `predictions` or `isLoaded`. */
    method Persist()
      modifies this
      ensures predictions == old(predictions) && isLoaded == old(isLoaded)
      ensures written == if isLoaded then old(written) + [predictions] else old(written)
    {
      if isLoaded {
        written := written + [predictions];
      }
    }

    /** The mount effect: the loaded map replaces the state, which is then persisted. */
    method Load(loaded: Store)
      requires Valid()
      modifies this
      ensures Valid() && isLoaded && predictions == loaded
      ensures written == old(written) + [loaded]
    {
      predictions := loaded;
      isLoaded := true;
      Persist();
    }

    method Save(matchId: string, prediction: Prediction)
      requires Valid()
      modifies this
      ensures Valid() && isLoaded == old(isLoaded)
      ensures predictions == SavePrediction(old(predictions), matchId, prediction)
      ensures written == if isLoaded then old(written) + [predictions] else old(written)
    {
      predictions := SavePrediction(predictions, matchId, prediction);
      Persist();
    }

    method Clear(matchId: string)
      requires Valid()
      modifies this
      ensures Valid() && isLoaded == old(isLoaded)
      ensures predictions == ClearPrediction(old(predictions), matchId)
      ensures written == if isLoaded then old(written) + [predictions] else old(written)
    {
      predictions := ClearPrediction(predictions, matchId);
      Persist();
    }
  }

  /** The context value the provider passes down. */
  datatype Context = Context(predictions: Store)

  datatype HookResult = Provided(context: Context) | Threw(message: string)

  const OutsideProviderMessage := "usePredictions must be used within PredictionsProvider"

  /** `usePredictions`: the context, or an error when no provider is above. */
  function UsePredictions(context: Option<Context>): (r: HookResult)
    ensures r.Threw? <==> context.None?
    ensures r.Provided? ==> r.context == context.value
  {
    match context
    case None => Threw(OutsideProviderMessage)
    case Some(c) => Provided(c)
  }
}
