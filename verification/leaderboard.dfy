/** The leaderboard ("social") screen: adding a person (app.js:252-256) and the
    signed delta label of each row (app.js:232-233). */
module Leaderboard {

  import opened Wrappers
  import opened AppStore
  import Decimal

  /** `if (!name) return;`: a dismissed prompt (None) and an empty answer are both
      falsy, so neither adds anyone. Otherwise the name is appended with a zero
      delta, after every existing entry, and nothing else changes. */
  function AddPerson(s: AppState, answer: Option<string>): (r: AppState)
    ensures answer == None || answer == Some("") ==> r == s
    ensures answer.Some? && answer.value != "" ==>
      && |r.leaderboard| == |s.leaderboard| + 1
      && r.leaderboard[..|s.leaderboard|] == s.leaderboard
      && r.leaderboard[|s.leaderboard|] == Entry(answer.value, 0)
    ensures r.(leaderboard := s.leaderboard) == s
  {
    match answer
    case None => s
    case Some(name) =>
      if name == "" then s
      else s.(leaderboard := s.leaderboard + [Entry(name, 0)])
  }

  /** The colour a row's delta is shown in. */
  datatype Tone = Accent | Negative

  function ToneOf(delta: int): (t: Tone)
    ensures t == Accent <==> delta >= 0
  {
    if delta >= 0 then Accent else Negative
  }

  /** The unit after every delta. */
  const Unit: string := " XP"

  /** A row's delta text: a '+' in front exactly when the delta is not negative
      (zero included), then the number as JavaScript prints it, then the unit. */
  function DeltaLabel(delta: int): (t: string)
    ensures |t| > |Unit| + 1 && t[|t| - |Unit|..] == Unit
    ensures t[0] == '+' <==> delta >= 0
    ensures t[0] == '-' <==> delta < 0
  {
    var number := Decimal.IntToString(delta);
    var t := (if delta >= 0 then "+" else "") + number + Unit;
    assert t[|t| - |Unit|..] == Unit;
    t
  }

  /** Reads a delta back from its label: a '+' must precede exactly the
      non-negative values. */
  function ParseDeltaLabel(t: string): (r: Option<int>)
  {
    if |t| < |Unit| || t[|t| - |Unit|..] != Unit then None
    else
      var body := t[..|t| - |Unit|];
      if |body| > 0 && body[0] == '+' then
        match Decimal.ParseInt(body[1..])
        case Some(n) => if n >= 0 then Some(n) else None
        case None => None
      else
        match Decimal.ParseInt(body)
        case Some(n) => if n < 0 then Some(n) else None
        case None => None
  }

  /** Every label reads back as its own delta. */
  lemma DeltaLabelRoundTrip(delta: int)
    ensures ParseDeltaLabel(DeltaLabel(delta)) == Some(delta)
  {
    var t := DeltaLabel(delta);
    var number := Decimal.IntToString(delta);
    var body := t[..|t| - |Unit|];
    Decimal.ParsePrintedInt(delta);
    if delta >= 0 {
      assert body == "+" + number;
      assert body[1..] == number;
    } else {
      assert body == number;
    }
  }

  /** A text that reads as a delta is that delta's label, so distinct deltas
      never share a label. */
  lemma ParsedLabelIsPrinted(t: string, delta: int)
    requires ParseDeltaLabel(t) == Some(delta)
    ensures DeltaLabel(delta) == t
  {
    var body := t[..|t| - |Unit|];
    assert t[|t| - |Unit|..] == Unit;
    assert t == body + Unit;
    if |body| > 0 && body[0] == '+' {
      var digits := body[1..];
      assert Decimal.ParseInt(digits) == Some(delta) && delta >= 0;
      Decimal.PrintParsedInt(digits, delta);
      assert body == "+" + digits;
      assert DeltaLabel(delta) == "+" + digits + Unit;
    } else {
      assert Decimal.ParseInt(body) == Some(delta) && delta < 0;
      Decimal.PrintParsedInt(body, delta);
      assert DeltaLabel(delta) == body + Unit;
    }
  }

  /** Adding a person keeps the state valid and never removes or edits an entry;
      anyone added has a name and a zero delta. */
  lemma AddPersonPreservesValid(s: AppState, answer: Option<string>)
    requires Valid(s)
    ensures Valid(AddPerson(s, answer))
    ensures SameFixedFields(s, AddPerson(s, answer))
    ensures Appended(s.leaderboard, AddPerson(s, answer).leaderboard)
  {
  }

}
