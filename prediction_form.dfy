/** The prediction dialog (frontend/src/components/prediction-form.tsx): the probability
    for the home team, an error message and a loading flag, changed by the text input,
    the slider, the open effect, save and clear. The away probability is derived, never
    stored. The dialog's `open` prop belongs to the parent; the model keeps it as a field
    that `SetOpen` (the parent's `onOpenChange`) and the dialog's own save and clear set. */
module PredictionFormState {
  import opened Wrappers
  import opened Js
  import opened Predictions

  const InvalidNumberMessage := "Please enter a valid number"
  const RangeMessage := "Probability must be between 0 and 100"

  /** A probability the dialog accepts. */
  predicate InRange(x: real) {
    0.0 <= x <= 100.0
  }

  /** A stored pair whose home value is in range and whose two values sum to 100. */
  predicate Balanced(p: Prediction) {
    InRange(p.teamA) && p.teamA + p.teamB == 100.0
  }

  /** Every prediction in the store is balanced. */
  predicate AllBalanced(store: Store) {
    forall k :: k in store ==> Balanced(store[k])
  }

  // ---------------------------------------------------------------------------
  // Reading the text input

  /** What the text input's value does to the home probability. */
  datatype Reading = NotANumber | OutOfRange | Accepted(x: real)

  /** `parseFloat` of the input, then the NaN test, then the range test; the infinities
      fail the range test. */
  function ReadTeamA(value: string): (r: Reading)
    ensures r.NotANumber? <==> ParseFloat(value).None?
    ensures r.Accepted? <==> ParseFloat(value).Some? && ParseFloat(value).value.Finite? &&
                             InRange(ParseFloat(value).value.r)
    ensures r.Accepted? ==> ParseFloat(value) == Some(Finite(r.x))
  {
    var parsed := ParseFloat(value);
    match parsed
    case None => NotANumber
    case Some(n) =>
      match n
      case Finite(x) => if x < 0.0 || x > 100.0 then OutOfRange else Accepted(x)
      case PosInfinity => OutOfRange
      case NegInfinity => OutOfRange
  }

  /** The decimal text of a whole number is accepted exactly when it is at most 100,
      and then as that number. */
  lemma ReadWholeNumber(n: nat)
    ensures n <= 100 ==> ReadTeamA(NatToDecimal(n)) == Accepted(n as real)
    ensures n > 100 ==> ReadTeamA(NatToDecimal(n)) == OutOfRange
  {
    ParseFloatOfDecimal(n);
  }

  /** A negative whole number is out of range. */
  lemma ReadNegativeNumber(n: nat)
    requires n > 0
    ensures ReadTeamA("-" + NatToDecimal(n)) == OutOfRange
  {
    var d := NatToDecimal(n);
    SignAndBodyOfSigned(true, d);
    DecimalLiteralOfDigits(n);
    assert !StartsWith(d, "Infinity") by {
      assert IsDigit(d[0]);
    }
  }

  /** An input with no number in it is not a number. */
  lemma ReadText()
    ensures ReadTeamA("abc") == NotANumber
  {
    var s := "abc";
    assert !IsWhiteSpace(s[0]);
    TrimStartKeeps(s);
    assert !StartsWith(s, "Infinity") by {
      assert s[0] != "Infinity"[0];
    }
    assert RadixPrefix(s, 10) == [] by {
      assert !IsDigit(s[0]);
    }
  }

  /** "Infinity" parses, but not into the range. */
  lemma ReadInfinity()
    ensures ReadTeamA("Infinity") == OutOfRange
  {
    var s := "Infinity";
    assert !IsWhiteSpace(s[0]);
    TrimStartKeeps(s);
    assert s[0] != '+' && s[0] != '-';
  }

  // ---------------------------------------------------------------------------
  // The store invariant

  /** Saving a balanced pair keeps every stored pair balanced. */
  lemma SaveKeepsBalanced(store: Store, matchId: string, p: Prediction)
    requires AllBalanced(store) && Balanced(p)
    ensures AllBalanced(SavePrediction(store, matchId, p))
  {
  }

  /** Clearing keeps every stored pair balanced. */
  lemma ClearKeepsBalanced(store: Store, matchId: string)
    requires AllBalanced(store)
    ensures AllBalanced(ClearPrediction(store, matchId))
  {
  }

  // ---------------------------------------------------------------------------
  // The dialog

  class PredictionForm {
    /** The store this dialog reads and writes (its context). */
    const provider: PredictionsProvider
    /** `match.id.toString()`. */
    const key: string
    var open: bool
    var teamAProb: real
    var error: string
    var isLoading: bool

    /** `existingPrediction`: the stored pair for this match, if any. */
    function Existing(): (r: Option<Prediction>)
      reads this, provider
      ensures r.Some? <==> key in provider.predictions
      ensures r.Some? ==> r.value == provider.predictions[key]
    {
      if key in provider.predictions then Some(provider.predictions[key]) else None
    }

    /** `teamBProb`. */
    function TeamBProb(): real
      reads this
    {
      100.0 - teamAProb
    }

    /** The Save button is disabled. */
    predicate SaveDisabled()
      reads this
    {
      error != "" || isLoading
    }

    /** The Clear button is shown. */
    predicate ClearOffered()
      reads this, provider
    {
      Existing().Some?
    }

    /** The first render: the stored home value or 50, no error, not loading. */
    constructor (provider: PredictionsProvider, key: string, open: bool)
      ensures this.provider == provider && this.key == key && this.open == open
      ensures teamAProb == (if key in provider.predictions then provider.predictions[key].teamA else 50.0)
      ensures error == "" && !isLoading
    {
      this.provider := provider;
      this.key := key;
      this.open := open;
      teamAProb := if key in provider.predictions then provider.predictions[key].teamA else 50.0;
      error := "";
      isLoading := false;
    }

    /** The parent's `onOpenChange`: the dialog opens or closes and nothing else changes
        (the open effect then runs separately). */
    method SetOpen(b: bool)
      modifies this
      ensures open == b
      ensures teamAProb == old(teamAProb) && error == old(error) && isLoading == old(isLoading)
    {
      open := b;
    }

    /** The effect on `open` and `existingPrediction`: an open dialog starts again from the
        stored home value, or 50 when there is none, with no error. */
    method OpenEffect()
      modifies this
      ensures open ==> teamAProb == Existing().GetOr(Prediction(50.0, 50.0)).teamA && error == ""
      ensures !open ==> teamAProb == old(teamAProb) && error == old(error)
      ensures open == old(open) && isLoading == old(isLoading)
      ensures open && AllBalanced(provider.predictions) ==> InRange(teamAProb)
    {
      if open {
        teamAProb := if key in provider.predictions then provider.predictions[key].teamA else 50.0;
        error := "";
      }
    }

    /** `handleTeamAChange`: a number in range replaces the home value and clears the
        error; anything else sets the matching error and keeps the value. */
    method HandleTeamAChange(value: string)
      modifies this
      ensures ReadTeamA(value).Accepted? ==> teamAProb == ReadTeamA(value).x && error == ""
      ensures ReadTeamA(value).NotANumber? ==> teamAProb == old(teamAProb) && error == InvalidNumberMessage
      ensures ReadTeamA(value).OutOfRange? ==> teamAProb == old(teamAProb) && error == RangeMessage
      ensures open == old(open) && isLoading == old(isLoading)
      ensures InRange(old(teamAProb)) ==> InRange(teamAProb)
    {
      var num := ParseFloat(value);
      if num.None? {
        error := InvalidNumberMessage;
        return;
      }
      if num.value.PosInfinity? || num.value.NegInfinity? || num.value.r < 0.0 || num.value.r > 100.0 {
        error := RangeMessage;
        return;
      }
      error := "";
      teamAProb := num.value.r;
    }

    /** `handleSliderChange`: the slider's single thumb, bounded by its `min` and `max`,
        replaces the home value and clears the error. */
    method HandleSliderChange(values: seq<real>)
      requires |values| >= 1 && InRange(values[0])
      modifies this
      ensures teamAProb == values[0] && error == ""
      ensures InRange(teamAProb)
      ensures open == old(open) && isLoading == old(isLoading)
    {
      teamAProb := values[0];
      error := "";
    }

    /** The part of `handleSave` before its timer: an out-of-range value sets the error and
        saves nothing; otherwise the dialog starts loading, clears the error and captures
        the pair to save. */
    method BeginSave() returns (pending: Option<Prediction>)
      modifies this
      ensures pending.None? <==> !InRange(old(teamAProb))
      ensures pending.None? ==> error == RangeMessage && isLoading == old(isLoading)
      ensures pending.Some? ==> pending.value == Prediction(old(teamAProb), 100.0 - old(teamAProb))
      ensures pending.Some? ==> Balanced(pending.value) && isLoading && error == "" && SaveDisabled()
      ensures teamAProb == old(teamAProb) && open == old(open)
    {
      if teamAProb < 0.0 || teamAProb > 100.0 {
        error := RangeMessage;
        return None;
      }
      isLoading := true;
      error := "";
      pending := Some(Prediction(teamAProb, TeamBProb()));
    }

    /** The part of `handleSave` after its timer: the captured pair is stored under this
        match, the dialog closes and loading stops. */
    method FinishSave(pending: Prediction)
      requires provider.Valid()
      modifies this, provider
      ensures provider.Valid()
      ensures provider.predictions == SavePrediction(old(provider.predictions), key, pending)
      ensures provider.isLoaded == old(provider.isLoaded)
      ensures provider.written ==
              if provider.isLoaded then old(provider.written) + [provider.predictions] else old(provider.written)
      ensures Existing() == Some(pending) && ClearOffered()
      ensures !open && !isLoading
      ensures teamAProb == old(teamAProb) && error == old(error)
    {
      provider.Save(key, pending);
      open := false;
      isLoading := false;
    }

    /** `handleClear`: the stored pair for this match is removed and the dialog closes. */
    method HandleClear()
      requires provider.Valid()
      modifies this, provider
      ensures provider.Valid()
      ensures provider.predictions == ClearPrediction(old(provider.predictions), key)
      ensures provider.isLoaded == old(provider.isLoaded)
      ensures provider.written ==
              if provider.isLoaded then old(provider.written) + [provider.predictions] else old(provider.written)
      ensures Existing() == None && !ClearOffered()
      ensures !open
      ensures teamAProb == old(teamAProb) && error == old(error) && isLoading == old(isLoading)
    {
      provider.Clear(key);
      open := false;
    }
  }

  /** A save that passed the range test stores a balanced pair, so a store of balanced
      pairs stays balanced through a whole save. */
  method SaveFromForm(form: PredictionForm)
    requires form.provider.Valid() && AllBalanced(form.provider.predictions)
    modifies form, form.provider
    ensures form.provider.Valid() && AllBalanced(form.provider.predictions)
    ensures InRange(old(form.teamAProb)) ==>
              form.provider.predictions == SavePrediction(old(form.provider.predictions), form.key,
                                                          Prediction(old(form.teamAProb), 100.0 - old(form.teamAProb))) &&
              form.error == "" && !form.open && !form.isLoading
    ensures !InRange(old(form.teamAProb)) ==>
              form.provider.predictions == old(form.provider.predictions) && form.error == RangeMessage &&
              form.open == old(form.open) && form.isLoading == old(form.isLoading)
    ensures form.teamAProb == old(form.teamAProb)
    ensures form.provider.isLoaded == old(form.provider.isLoaded)
    ensures form.provider.written ==
            if form.provider.isLoaded && InRange(old(form.teamAProb))
            then old(form.provider.written) + [form.provider.predictions]
            else old(form.provider.written)
  {
    var pending := form.BeginSave();
    if pending.Some? {
      SaveKeepsBalanced(form.provider.predictions, form.key, pending.value);
      form.FinishSave(pending.value);
    }
  }
}
