/** The label reconcile (scripts/import-labels.ps1): plan against a listing, then apply through the API.

    Keys fold case; PowerShell's `-ne` folds case too, which matters for descriptions. Folding and trimming
    are modelled on ASCII. The API accepts a request exactly when its colour, if sent, is six hex digits. */
module ImportLabels {
  import opened Sequences
  import opened Texts

  datatype Label = Label(name: string, color: Option<string>, description: Option<string>)

  datatype Action =
    | Create(name: string, color: Option<string>, description: string)
    | Update(name: string, color: Option<string>, description: string)
    | Delete(name: string)

  /** The labels of the target repository by folded name. */
  type Target = map<string, Label>

  function Lower(s: string): (r: string)
    ensures |r| == |s|
  {
    seq(|s|, i requires 0 <= i < |s| => LowerChar(s[i]))
  }

  /** `ConvertTo-NormalizedColor`. */
  function NormalizedColor(color: Option<string>): Option<string> {
    if color.None? || color.value == "" then None
    else
      var c := TrimEnd(TrimStart(color.value));
      Some(Lower(if c != "" && c[0] == '#' then c[1..] else c))
  }

  function Description(l: Label): string { if l.description.Some? then l.description.value else "" }

  function Key(l: Label): string { Lower(l.name) }

  function Lookup(t: Target, key: string): Option<Label> { if key in t then Some(t[key]) else None }

  predicate NeedsUpdate(source: Label, existing: Label) {
    NormalizedColor(existing.color) != NormalizedColor(source.color) ||
    Lower(Description(existing)) != Lower(Description(source))
  }

  // ---------------------------------------------------------------- the plan

  function PlanFor(source: Label, t: Target): seq<Action> {
    if source.name == "" then []
    else
      var color, description := NormalizedColor(source.color), Description(source);
      if Key(source) !in t then [Create(source.name, color, description)]
      else if NeedsUpdate(source, t[Key(source)]) then [Update(source.name, color, description)]
      else []
  }

  function SourcePlan(source: seq<Label>, t: Target): seq<Action> {
    if source == [] then [] else SourcePlan(source[..|source| - 1], t) + PlanFor(source[|source| - 1], t)
  }

  predicate InSource(source: seq<Label>, key: string) {
    exists i :: 0 <= i < |source| && source[i].name != "" && Key(source[i]) == key
  }

  function DeletePlan(existing: seq<Label>, source: seq<Label>): seq<Action> {
    if existing == [] then []
    else
      var e := existing[|existing| - 1];
      DeletePlan(existing[..|existing| - 1], source) + (if InSource(source, Key(e)) then [] else [Delete(e.name)])
  }

  /** An empty source file ends the script before it plans anything. */
  function Plan(source: seq<Label>, existing: seq<Label>, t: Target, deleteMissing: bool): seq<Action> {
    if source == [] then []
    else SourcePlan(source, t) + (if deleteMissing then DeletePlan(existing, source) else [])
  }

  /** GitHub keeps labels unique up to case and their colours valid. */
  ghost predicate WellFormed(t: Target) {
    forall k :: k in t ==> Key(t[k]) == k && t[k].color.Some? && ValidColor(t[k].color.value)
  }

  /** `existing` is a listing of `t`. */
  ghost predicate Lists(existing: seq<Label>, t: Target) {
    && (forall i :: 0 <= i < |existing| ==> Key(existing[i]) in t && t[Key(existing[i])] == existing[i])
    && (forall k :: k in t ==> Listed(existing, k))
  }

  predicate Listed(existing: seq<Label>, key: string) {
    exists i :: 0 <= i < |existing| && Key(existing[i]) == key
  }

  predicate ValidColor(c: string) { |c| == 6 && forall i :: 0 <= i < 6 ==> IsLowerHex(c[i]) }

  // ---------------------------------------------------------------- the API

  /** The colour GitHub gives a label created without one. */
  const DEFAULT_COLOR := "ededed"

  /** The colour argument of a request: none for `$null` and the empty string. */
  predicate Sent(color: Option<string>) { color.Some? && color.value != "" }

  predicate Accepted(color: Option<string>) { Sent(color) ==> ValidColor(color.value) }

  function Perform(t: Target, a: Action): Target {
    match a
    case Create(name, color, description) =>
      if Lower(name) in t || !Accepted(color) then t
      else t[Lower(name) := Label(name, Some(if Sent(color) then color.value else DEFAULT_COLOR), Some(description))]
    case Update(name, color, description) =>
      if Lower(name) !in t || !Accepted(color) then t
      else t[Lower(name) := Label(name, if Sent(color) then color else t[Lower(name)].color, Some(description))]
    case Delete(name) => map k | k in t && k != Lower(name) :: t[k]
  }

  function PerformAll(t: Target, actions: seq<Action>): Target {
    if actions == [] then t else Perform(PerformAll(t, actions[..|actions| - 1]), actions[|actions| - 1])
  }

  // ---------------------------------------------------------------- what a run of the script leaves

  predicate IsFor(source: Label, key: string) { source.name != "" && Key(source) == key }

  /** What performing the action planned for `source` against the listed label makes of the label as it now is. */
  function Step(source: Label, listed: Option<Label>, now: Option<Label>): Option<Label> {
    var color := NormalizedColor(source.color);
    if !Accepted(color) then now
    else if listed.None? then
      if now.Some? then now
      else Some(Label(source.name, Some(if Sent(color) then color.value else DEFAULT_COLOR), Some(Description(source))))
    else if now.Some? && NeedsUpdate(source, listed.value) then
      Some(Label(source.name, if Sent(color) then color else now.value.color, Some(Description(source))))
    else now
  }

  /** What becomes of the label with this key: every source label of that key was planned against the same
      listing, so the first accepted creation wins, or the last accepted update. */
  function Outcome(source: seq<Label>, key: string, listed: Option<Label>): Option<Label> {
    if source == [] then listed
    else
      var before, last := Outcome(source[..|source| - 1], key, listed), source[|source| - 1];
      if IsFor(last, key) then Step(last, listed, before) else before
  }

  lemma {:induction false} PerformConcat(t: Target, a: seq<Action>, b: seq<Action>)
    ensures PerformAll(t, a + b) == PerformAll(PerformAll(t, a), b)
  {
    if b == [] {
      assert a + b == a;
    } else {
      PerformConcat(t, a, b[..|b| - 1]);
      assert (a + b)[..|a + b| - 1] == a + b[..|b| - 1];
    }
  }

  /** The plan for one label, performed: its own key takes the step, no other key changes. */
  lemma PerformPlanFor(t: Target, now: Target, source: Label, key: string)
    requires Key(source) in t ==> Key(source) in now
    ensures Lookup(PerformAll(now, PlanFor(source, t)), key) ==
            if IsFor(source, key) then Step(source, Lookup(t, key), Lookup(now, key)) else Lookup(now, key)
  {
    var plan := PlanFor(source, t);
    if plan != [] {
      assert plan[..|plan| - 1] == [];
      assert PerformAll(now, plan) == Perform(now, plan[0]);
    }
    hide NormalizedColor, Description;
  }

  lemma {:induction false} OutcomeKeeps(source: seq<Label>, key: string, listed: Option<Label>)
    requires listed.Some?
    ensures Outcome(source, key, listed).Some?
  {
    if source != [] {
      OutcomeKeeps(source[..|source| - 1], key, listed);
    }
  }

  /** Creates and updates, over the whole source, key by key. */
  lemma {:induction false} PerformSourcePlan(source: seq<Label>, t: Target, key: string)
    ensures Lookup(PerformAll(t, SourcePlan(source, t)), key) == Outcome(source, key, Lookup(t, key))
  {
    if source != [] {
      var init, last := source[..|source| - 1], source[|source| - 1];
      PerformSourcePlan(init, t, key);
      PerformConcat(t, SourcePlan(init, t), PlanFor(last, t));
      var before := PerformAll(t, SourcePlan(init, t));
      hide PlanFor, Step, IsFor, PerformAll;
      PerformSourcePlan(init, t, Key(last));
      if Key(last) in t {
        OutcomeKeeps(init, Key(last), Lookup(t, Key(last)));
      }
      PerformPlanFor(t, before, last, key);
    }
  }

  lemma {:induction false} OutcomeOutside(source: seq<Label>, key: string, listed: Option<Label>)
    requires !InSource(source, key)
    ensures Outcome(source, key, listed) == listed
  {
    if source != [] {
      var init := source[..|source| - 1];
      forall i | 0 <= i < |init|
        ensures !IsFor(init[i], key)
      {
        assert init[i] == source[i];
      }
      OutcomeOutside(init, key, listed);
    }
  }

  lemma {:induction false} PerformDeletePlan(n: Target, existing: seq<Label>, source: seq<Label>)
    ensures var m := PerformAll(n, DeletePlan(existing, source));
            forall k :: Lookup(m, k) == if Listed(existing, k) && !InSource(source, k) then None else Lookup(n, k)
  {
    if existing != [] {
      var init, last := existing[..|existing| - 1], existing[|existing| - 1];
      PerformDeletePlan(n, init, source);
      var before := PerformAll(n, DeletePlan(init, source));
      assert forall k :: Listed(existing, k) <==> Listed(init, k) || Key(last) == k by {
        ListedPush(existing);
      }
      if !InSource(source, Key(last)) {
        assert DeletePlan(existing, source)[..|DeletePlan(init, source)|] == DeletePlan(init, source);
        assert PerformAll(n, DeletePlan(existing, source)) == Perform(before, Delete(last.name));
      } else {
        assert DeletePlan(existing, source) == DeletePlan(init, source);
      }
      hide InSource, Listed, DeletePlan;
    }
  }

  lemma ListedPush(existing: seq<Label>)
    requires existing != []
    ensures forall k :: Listed(existing, k) <==>
              Listed(existing[..|existing| - 1], k) || Key(existing[|existing| - 1]) == k
  {
    var init := existing[..|existing| - 1];
    forall k
      ensures Listed(existing, k) <==> Listed(init, k) || Key(existing[|existing| - 1]) == k
    {
      if Listed(init, k) {
        var i :| 0 <= i < |init| && Key(init[i]) == k;
        assert Key(existing[i]) == k;
      }
      if Listed(existing, k) {
        var i :| 0 <= i < |existing| && Key(existing[i]) == k;
        assert i < |init| ==> Key(init[i]) == k;
      }
    }
  }

  function Result(source: seq<Label>, existing: seq<Label>, t: Target, deleteMissing: bool): Target {
    PerformAll(t, Plan(source, existing, t, deleteMissing))
  }

  /** The target after the script, key by key, whatever the source. */
  lemma AfterScript(source: seq<Label>, existing: seq<Label>, t: Target, deleteMissing: bool, key: string)
    requires Lists(existing, t)
    ensures Lookup(Result(source, existing, t, deleteMissing), key) ==
            if InSource(source, key) then Outcome(source, key, Lookup(t, key))
            else if deleteMissing && source != [] then None else Lookup(t, key)
  {
    if source != [] {
      PerformSourcePlan(source, t, key);
      var a := SourcePlan(source, t);
      var n := PerformAll(t, a);
      if !InSource(source, key) {
        OutcomeOutside(source, key, Lookup(t, key));
      }
      if deleteMissing {
        PerformConcat(t, a, DeletePlan(existing, source));
        PerformDeletePlan(n, existing, source);
        assert key in t ==> Listed(existing, key);
      } else {
        assert a + [] == a;
      }
      hide InSource, Outcome, Listed, DeletePlan, SourcePlan, PerformAll;
    }
  }

  // ---------------------------------------------------------------- convergence

  /** The label the source asks for, as the plan compares labels. */
  predicate Matches(source: Label, l: Label) {
    Key(l) == Key(source) && !NeedsUpdate(source, l)
  }

  predicate ProperColor(source: Label) {
    NormalizedColor(source.color).Some? && ValidColor(NormalizedColor(source.color).value)
  }

  predicate Blanks(w: string) { forall i :: 0 <= i < |w| ==> IsSpace(w[i]) }

  lemma {:induction false} TrimsFront(w: string, s: string)
    requires Blanks(w) && (s != "" ==> !IsSpace(s[0]))
    ensures TrimStart(w + s) == s
  {
    if w == "" {
      assert w + s == s;
    } else {
      assert (w + s)[1..] == w[1..] + s;
      TrimsFront(w[1..], s);
    }
  }

  lemma {:induction false} TrimsBack(s: string, w: string)
    requires Blanks(w) && (s != "" ==> !IsSpace(s[|s| - 1]))
    ensures TrimEnd(s + w) == s
  {
    if w == "" {
      assert s + w == s;
    } else {
      assert (s + w)[..|s + w| - 1] == s + w[..|w| - 1];
      TrimsBack(s, w[..|w| - 1]);
    }
  }

  predicate HexInAnyCase(c: string) { |c| == 6 && forall i :: 0 <= i < 6 ==> IsLowerHex(LowerChar(c[i])) }

  /** Blanks around a colour, a `#` before it and its case are normalised away. */
  lemma ColorIsNormalized(w: string, hash: string, c: string, v: string)
    requires Blanks(w) && Blanks(v) && HexInAnyCase(c) && hash in ["", "#"]
    ensures NormalizedColor(Some(w + (hash + c + v))) == Some(Lower(c)) && ValidColor(Lower(c))
    ensures ProperColor(Label("", Some(w + (hash + c + v)), None))
  {
    var s := hash + c;
    assert forall i :: 0 <= i < 6 ==> c[i] != '#' && !IsSpace(c[i]);
    assert s[0] == (if hash == "" then c[0] else '#') && s[|s| - 1] == c[5];
    assert hash + c + v == s + v && (s + v)[0] == s[0];
    TrimsFront(w, s + v);
    TrimsBack(s, v);
    assert hash == "#" ==> s[1..] == c;
    assert hash == "" ==> s == c;
    assert ValidColor(Lower(c));
  }

  /** A label that matches has the source's normalised colour, and its description up to case. */
  lemma MatchMeans(source: Label, l: Label)
    requires Kept(Some(l), Key(source))
    ensures Matches(source, l) <==>
            Some(l.color.value) == NormalizedColor(source.color) && Lower(Description(l)) == Lower(Description(source))
  {
    ValidColorIsNormal(l.color.value);
    hide NormalizedColor, Lower, Description;
  }

  lemma ValidColorIsNormal(c: string)
    requires ValidColor(c)
    ensures NormalizedColor(Some(c)) == Some(c)
  {
    assert Lower(c) == c;
  }

  /** A label as the API keeps it under this key. */
  ghost predicate Kept(l: Option<Label>, key: string) {
    l.Some? ==> Key(l.value) == key && l.value.color.Some? && ValidColor(l.value.color.value)
  }

  lemma StepStaysKept(source: Label, key: string, listed: Option<Label>, now: Option<Label>)
    requires Kept(now, key) && IsFor(source, key)
    ensures Kept(Step(source, listed, now), key)
  {
    assert ValidColor(DEFAULT_COLOR);
  }

  lemma {:induction false} OutcomeStaysKept(source: seq<Label>, key: string, listed: Option<Label>)
    requires Kept(listed, key)
    ensures Kept(Outcome(source, key, listed), key)
  {
    if source != [] {
      OutcomeStaysKept(source[..|source| - 1], key, listed);
      if IsFor(source[|source| - 1], key) {
        StepStaysKept(source[|source| - 1], key, listed, Outcome(source[..|source| - 1], key, listed));
      }
    }
  }

  /** Two source labels ask for the same, as the plan compares labels. */
  predicate Agree(a: Label, b: Label) {
    NormalizedColor(a.color) == NormalizedColor(b.color) && Lower(Description(a)) == Lower(Description(b))
  }

  /** Everything the source says about this key agrees with `wanted`. */
  predicate AllAgree(source: seq<Label>, wanted: Label) {
    forall j :: 0 <= j < |source| && IsFor(source[j], Key(wanted)) ==> Agree(source[j], wanted)
  }

  /** Labels of one key agree with each other. */
  predicate Consistent(source: seq<Label>) {
    forall i :: 0 <= i < |source| && source[i].name != "" ==> AllAgree(source, source[i])
  }

  lemma KeptMatchIsProper(source: Label, l: Label)
    requires Kept(Some(l), Key(source)) && Matches(source, l)
    ensures ProperColor(source)
  {
    ValidColorIsNormal(l.color.value);
  }

  /** One step with a proper colour, after which the label matches: a creation, an update, or a label that
      matched already. */
  lemma StepMatches(source: Label, wanted: Label, listed: Option<Label>, now: Option<Label>)
    requires ProperColor(wanted) && Key(source) == Key(wanted) && Agree(source, wanted)
    requires Kept(listed, Key(wanted)) && Kept(now, Key(wanted))
    requires now == listed || (now.Some? && Matches(wanted, now.value))
    ensures Step(source, listed, now).Some? && Matches(wanted, Step(source, listed, now).value)
  {
    ValidColorIsNormal(NormalizedColor(source.color).value);
    hide NormalizedColor, Lower, Description;
    assert Matches(wanted, Label(source.name, NormalizedColor(source.color), Some(Description(source)))) by {
      DescribedAs(source.name, NormalizedColor(source.color), source);
    }
  }

  lemma DescribedAs(name: string, color: Option<string>, source: Label)
    ensures Description(Label(name, color, Some(Description(source)))) == Description(source)
  {
  }

  /** With agreeing source labels of a proper colour, the outcome matches once one of them was seen. */
  lemma {:induction false} OutcomeMatches(source: seq<Label>, wanted: Label, listed: Option<Label>)
    requires ProperColor(wanted) && AllAgree(source, wanted) && Kept(listed, Key(wanted))
    ensures var r := Outcome(source, Key(wanted), listed);
            if InSource(source, Key(wanted)) then r.Some? && Matches(wanted, r.value) else r == listed
  {
    if source != [] {
      var init, last := source[..|source| - 1], source[|source| - 1];
      assert AllAgree(init, wanted) by {
        assert forall j :: 0 <= j < |init| ==> init[j] == source[j];
      }
      OutcomeMatches(init, wanted, listed);
      OutcomeStaysKept(init, Key(wanted), listed);
      InSourcePush(source, Key(wanted));
      hide InSource, Matches, ProperColor, Kept, Step, Agree;
      if IsFor(last, Key(wanted)) {
        assert IsFor(source[|source| - 1], Key(wanted));
        StepMatches(last, wanted, listed, Outcome(init, Key(wanted), listed));
      }
    }
  }

  lemma InSourcePush(source: seq<Label>, key: string)
    requires source != []
    ensures InSource(source, key) <==> InSource(source[..|source| - 1], key) || IsFor(source[|source| - 1], key)
  {
    var init := source[..|source| - 1];
    if InSource(init, key) {
      var i :| 0 <= i < |init| && init[i].name != "" && Key(init[i]) == key;
      assert Key(source[i]) == key;
    }
    if InSource(source, key) {
      var i :| 0 <= i < |source| && source[i].name != "" && Key(source[i]) == key;
      assert i < |init| ==> Key(init[i]) == key;
    }
  }

  lemma LookupIsKept(t: Target, key: string)
    requires WellFormed(t)
    ensures Kept(Lookup(t, key), key)
  {
  }

  lemma StaysWellFormed(source: seq<Label>, existing: seq<Label>, t: Target, deleteMissing: bool)
    requires Lists(existing, t) && WellFormed(t)
    ensures WellFormed(Result(source, existing, t, deleteMissing))
  {
    var n := Result(source, existing, t, deleteMissing);
    forall k | k in n
      ensures Kept(Some(n[k]), k)
    {
      AfterScript(source, existing, t, deleteMissing, k);
      LookupIsKept(t, k);
      OutcomeStaysKept(source, k, Lookup(t, k));
      hide Result, Outcome, InSource, Kept;
      assert Lookup(n, k) == Some(n[k]);
    }
  }

  /** Afterwards the target has a label matching a source label exactly when that one's colour is proper, if
      the source says nothing else under the same key. */
  lemma SourceLabelsMatchIff(source: seq<Label>, existing: seq<Label>, t: Target, deleteMissing: bool, i: nat)
    requires Lists(existing, t) && WellFormed(t)
    requires i < |source| && source[i].name != "" && AllAgree(source, source[i])
    ensures var n := Result(source, existing, t, deleteMissing);
            Key(source[i]) in n && Matches(source[i], n[Key(source[i])]) <==> ProperColor(source[i])
  {
    var n, key := Result(source, existing, t, deleteMissing), Key(source[i]);
    AfterScript(source, existing, t, deleteMissing, key);
    LookupIsKept(t, key);
    OutcomeStaysKept(source, key, Lookup(t, key));
    assert InSource(source, key);
    hide Result, Outcome, InSource, AllAgree, Matches, Kept, ProperColor;
    if ProperColor(source[i]) {
      OutcomeMatches(source, source[i], Lookup(t, key));
    }
    if key in n && Matches(source[i], n[key]) {
      KeptMatchIsProper(source[i], n[key]);
    }
  }

  /** Every named source label is matched exactly when all have proper colours and those of one key agree. */
  lemma AllMatchIff(source: seq<Label>, existing: seq<Label>, t: Target, deleteMissing: bool)
    requires Lists(existing, t) && WellFormed(t)
    ensures var n := Result(source, existing, t, deleteMissing);
            (forall i :: 0 <= i < |source| && source[i].name != "" ==>
               Key(source[i]) in n && Matches(source[i], n[Key(source[i])])) <==>
            (Consistent(source) && forall i :: 0 <= i < |source| && source[i].name != "" ==> ProperColor(source[i]))
  {
    var n := Result(source, existing, t, deleteMissing);
    StaysWellFormed(source, existing, t, deleteMissing);
    hide Result, ProperColor;
    if forall i :: 0 <= i < |source| && source[i].name != "" ==> Key(source[i]) in n && Matches(source[i], n[Key(source[i])]) {
      MatchedAgree(source, n);
      forall i | 0 <= i < |source| && source[i].name != ""
        ensures ProperColor(source[i])
      {
        KeptMatchIsProper(source[i], n[Key(source[i])]);
      }
    }
    hide Matches, AllAgree, WellFormed;
    if Consistent(source) && forall i :: 0 <= i < |source| && source[i].name != "" ==> ProperColor(source[i]) {
      forall i | 0 <= i < |source| && source[i].name != ""
        ensures Key(source[i]) in n && Matches(source[i], n[Key(source[i])])
      {
        SourceLabelsMatchIff(source, existing, t, deleteMissing, i);
      }
    }
  }

  lemma MatchedAgree(source: seq<Label>, n: Target)
    requires forall i :: 0 <= i < |source| && source[i].name != "" ==>
               Key(source[i]) in n && Matches(source[i], n[Key(source[i])])
    ensures Consistent(source)
  {
    hide NormalizedColor, Lower, Description, Key;
  }

  lemma {:induction false} SourcePlanEmptyIff(source: seq<Label>, t: Target)
    ensures SourcePlan(source, t) == [] <==>
            forall i :: 0 <= i < |source| && source[i].name != "" ==>
              Key(source[i]) in t && !NeedsUpdate(source[i], t[Key(source[i])])
  {
    if source != [] {
      var init, last := source[..|source| - 1], source[|source| - 1];
      SourcePlanEmptyIff(init, t);
      hide NeedsUpdate, Key;
      assert SourcePlan(source, t) == [] <==> SourcePlan(init, t) == [] && PlanFor(last, t) == [];
      assert forall i :: 0 <= i < |init| ==> init[i] == source[i];
    }
  }

  lemma {:induction false} DeletePlanEmpty(existing: seq<Label>, source: seq<Label>)
    requires forall i :: 0 <= i < |existing| ==> InSource(source, Key(existing[i]))
    ensures DeletePlan(existing, source) == []
  {
    if existing != [] {
      DeletePlanEmpty(existing[..|existing| - 1], source);
    }
  }

  /** Convergence: planning again, against any listing of the result, finds nothing to do exactly when every
      named source label has a proper colour and labels of one key agree. */
  lemma ReplanIsEmptyIff(source: seq<Label>, existing: seq<Label>, t: Target, deleteMissing: bool, again: seq<Label>)
    requires Lists(existing, t) && WellFormed(t)
    requires Lists(again, Result(source, existing, t, deleteMissing))
    ensures Plan(source, again, Result(source, existing, t, deleteMissing), deleteMissing) == [] <==>
            (Consistent(source) && forall i :: 0 <= i < |source| && source[i].name != "" ==> ProperColor(source[i]))
  {
    var n := Result(source, existing, t, deleteMissing);
    StaysWellFormed(source, existing, t, deleteMissing);
    AllMatchIff(source, existing, t, deleteMissing);
    SourcePlanEmptyIff(source, n);
    assert forall i :: 0 <= i < |source| && Key(source[i]) in n ==>
        (Matches(source[i], n[Key(source[i])]) <==> !NeedsUpdate(source[i], n[Key(source[i])]));
    if source != [] && deleteMissing {
      forall j | 0 <= j < |again|
        ensures InSource(source, Key(again[j]))
      {
        AfterScript(source, existing, t, true, Key(again[j]));
        assert Lookup(n, Key(again[j])).Some?;
      }
      DeletePlanEmpty(again, source);
    }
    hide Result, SourcePlan, DeletePlan, NeedsUpdate, Matches, ProperColor, Key, Lists, WellFormed, Lookup, Consistent;
  }

  lemma {:induction false} OutcomeExistsIff(source: seq<Label>, key: string, listed: Option<Label>)
    ensures Outcome(source, key, listed).Some? <==>
            listed.Some? || exists j :: 0 <= j < |source| && IsFor(source[j], key) && Accepted(NormalizedColor(source[j].color))
  {
    if source != [] {
      var init, last := source[..|source| - 1], source[|source| - 1];
      OutcomeExistsIff(init, key, listed);
      hide IsFor, Accepted, NormalizedColor, NeedsUpdate;
      assert forall j :: 0 <= j < |init| ==> init[j] == source[j];
      assert last == source[|source| - 1];
    }
  }

  /** `-DeleteMissing` leaves exactly the source's keys if and only if the source is empty along with the
      target, or each of its keys was in the target or is created with a colour the API accepts. */
  lemma DeleteMissingKeysIff(source: seq<Label>, existing: seq<Label>, t: Target)
    requires Lists(existing, t)
    ensures (forall k :: k in Result(source, existing, t, true) <==> InSource(source, k)) <==>
            if source == [] then t == map[]
            else forall i :: 0 <= i < |source| && source[i].name != "" ==>
                   Key(source[i]) in t || exists j :: 0 <= j < |source| && IsFor(source[j], Key(source[i])) &&
                                                      Accepted(NormalizedColor(source[j].color))
  {
    var n := Result(source, existing, t, true);
    if source == [] {
      assert n == t;
      assert forall k :: !InSource(source, k);
    } else {
      forall k
        ensures k in n <==> InSource(source, k) && Outcome(source, k, Lookup(t, k)).Some?
      {
        AfterScript(source, existing, t, true, k);
      }
      forall i | 0 <= i < |source| && source[i].name != ""
        ensures InSource(source, Key(source[i]))
        ensures Outcome(source, Key(source[i]), Lookup(t, Key(source[i]))).Some? <==>
                Key(source[i]) in t || exists j :: 0 <= j < |source| && IsFor(source[j], Key(source[i])) &&
                                                   Accepted(NormalizedColor(source[j].color))
      {
        OutcomeExistsIff(source, Key(source[i]), Lookup(t, Key(source[i])));
      }
      hide Result, Outcome, Accepted, NormalizedColor, Lists;
    }
  }

  /** Without it, labels outside the source are untouched. */
  lemma OthersUntouched(source: seq<Label>, existing: seq<Label>, t: Target, k: string)
    requires Lists(existing, t) && !InSource(source, k)
    ensures Lookup(Result(source, existing, t, false), k) == Lookup(t, k)
  {
    AfterScript(source, existing, t, false, k);
  }

  /** The source label's action is accepted, and is a creation or an update that the plan sees a need for. */
  predicate Writes(source: Label, listed: Option<Label>) {
    Accepted(NormalizedColor(source.color)) && (listed.Some? ==> NeedsUpdate(source, listed.value))
  }

  /** The source label that the label of this key is finally written from: the first creation, the last update. */
  function Writer(source: seq<Label>, key: string, listed: Option<Label>): Option<Label> {
    if source == [] then None
    else
      var before, last := Writer(source[..|source| - 1], key, listed), source[|source| - 1];
      if IsFor(last, key) && Writes(last, listed) && (listed.None? ==> before.None?) then Some(last) else before
  }

  lemma {:induction false} WriterWrites(source: seq<Label>, key: string, listed: Option<Label>)
    ensures var w, r := Writer(source, key, listed), Outcome(source, key, listed);
            if w.Some? then r.Some? && r.value.name == w.value.name && Description(r.value) == Description(w.value)
            else r == listed
  {
    if source != [] {
      WriterWrites(source[..|source| - 1], key, listed);
      hide NormalizedColor, Lower, Sent, ValidColor;
    }
  }

  /** A source label's description is what the target has under its key afterwards if and only if it is the
      writer's, or the listed one where nothing is written. */
  lemma DescriptionWrittenIff(source: seq<Label>, existing: seq<Label>, t: Target, deleteMissing: bool, i: nat)
    requires Lists(existing, t) && i < |source| && source[i].name != ""
    ensures var n, key := Result(source, existing, t, deleteMissing), Key(source[i]);
            var w := Writer(source, key, Lookup(t, key));
            (key in n && Description(n[key]) == Description(source[i])) <==>
            if w.Some? then Description(w.value) == Description(source[i])
            else key in t && Description(t[key]) == Description(source[i])
  {
    var key := Key(source[i]);
    AfterScript(source, existing, t, deleteMissing, key);
    WriterWrites(source, key, Lookup(t, key));
    assert InSource(source, key);
    hide Result, Outcome, Writer, InSource, Description, Lists;
  }

  lemma {:induction false} OnlyWriter(source: seq<Label>, i: nat, listed: Option<Label>, n: nat)
    requires i < |source| && source[i].name != "" && n <= |source|
    requires forall j :: 0 <= j < |source| && IsFor(source[j], Key(source[i])) ==> j == i
    ensures Writer(source[..n], Key(source[i]), listed) == if i < n && Writes(source[i], listed) then Some(source[i]) else None
  {
    if n > 0 {
      OnlyWriter(source, i, listed, n - 1);
      assert source[..n][..n - 1] == source[..n - 1];
      hide Writes, Key;
      assert IsFor(source[n - 1], Key(source[i])) <==> n - 1 == i;
    }
  }

  /** For a name given once: the description is written if it already agrees, or if the plan sees a difference
      and the colour is accepted; a difference in case only, with equal colours, is not seen. */
  lemma OwnDescriptionWrittenIff(source: seq<Label>, existing: seq<Label>, t: Target, deleteMissing: bool, i: nat)
    requires Lists(existing, t) && i < |source| && source[i].name != ""
    requires forall j :: 0 <= j < |source| && IsFor(source[j], Key(source[i])) ==> j == i
    ensures var n, key := Result(source, existing, t, deleteMissing), Key(source[i]);
            (key in n && Description(n[key]) == Description(source[i])) <==>
            (Accepted(NormalizedColor(source[i].color)) && (key in t ==> NeedsUpdate(source[i], t[key])))
            || (key in t && Description(t[key]) == Description(source[i]))
  {
    var key := Key(source[i]);
    DescriptionWrittenIff(source, existing, t, deleteMissing, i);
    OnlyWriter(source, i, Lookup(t, key), |source|);
    assert source[..|source|] == source;
    hide Result, Writer, Lists, Accepted, NormalizedColor, NeedsUpdate, Description;
  }

  lemma CaseOnlyChangeWitness() returns (source: Label, l: Label)
    ensures ProperColor(source) && Description(source) != Description(l)
    ensures PlanFor(source, map[Key(l) := l]) == []
  {
    source, l := Label("bug", Some("d73a4a"), Some("Broken")), Label("bug", Some("d73a4a"), Some("broken"));
    ValidColorIsNormal("d73a4a");
    assert Lower("Broken") == Lower("broken") == "broken";
  }

  // ---------------------------------------------------------------- the script

  class Repository {
    var labels: Target

    /** The lookup by folded name, built from the listing. */
    method IndexByName(existing: seq<Label>) returns (byName: Target)
      requires Lists(existing, labels)
      ensures byName == labels
    {
      byName := map[];
      for i := 0 to |existing|
        invariant forall k :: k in byName ==> k in labels && byName[k] == labels[k]
        invariant forall j :: 0 <= j < i ==> Key(existing[j]) in byName
      {
        byName := byName[Key(existing[i]) := existing[i]];
      }
      assert forall k :: k in labels ==> Listed(existing, k);
    }

    method SourceNames(source: seq<Label>) returns (names: set<string>)
      ensures forall k :: k in names <==> InSource(source, k)
    {
      names := {};
      for i := 0 to |source|
        invariant forall k :: k in names <==> exists j :: 0 <= j < i && source[j].name != "" && Key(source[j]) == k
      {
        if source[i].name != "" {
          names := names + {Key(source[i])};
        }
      }
    }

    /** The create and update loop. */
    method PlanSource(source: seq<Label>, existingByName: Target) returns (actions: seq<Action>)
      ensures actions == SourcePlan(source, existingByName)
    {
      hide NormalizedColor, Lower;
      actions := [];
      for i := 0 to |source|
        invariant actions == SourcePlan(source[..i], existingByName)
      {
        assert source[..i + 1][..i] == source[..i];
        var wanted := source[i];
        if wanted.name == "" {
          continue;
        }
        var color, description := NormalizedColor(wanted.color), Description(wanted);
        if Key(wanted) !in existingByName {
          actions := actions + [Create(wanted.name, color, description)];
          continue;
        }
        var found := existingByName[Key(wanted)];
        var needsUpdate := false;
        if NormalizedColor(found.color) != color {
          needsUpdate := true;
        }
        if Lower(Description(found)) != Lower(description) {
          needsUpdate := true;
        }
        if needsUpdate {
          actions := actions + [Update(wanted.name, color, description)];
        }
      }
      assert source[..|source|] == source;
    }

    /** The deletion loop over the listing. */
    method PlanDeletes(source: seq<Label>, existing: seq<Label>) returns (actions: seq<Action>)
      ensures actions == DeletePlan(existing, source)
    {
      hide Lower;
      var names := SourceNames(source);
      actions := [];
      for i := 0 to |existing|
        invariant actions == DeletePlan(existing[..i], source)
      {
        assert existing[..i + 1][..i] == existing[..i];
        if Key(existing[i]) !in names {
          actions := actions + [Delete(existing[i].name)];
        }
      }
      assert existing[..|existing|] == existing;
    }

    method ComputePlan(source: seq<Label>, existing: seq<Label>, deleteMissing: bool) returns (actions: seq<Action>)
      requires Lists(existing, labels)
      ensures actions == Plan(source, existing, labels, deleteMissing)
    {
      actions := [];
      if source != [] {
        var existingByName := IndexByName(existing);
        actions := PlanSource(source, existingByName);
        if deleteMissing {
          var deletes := PlanDeletes(source, existing);
          actions := actions + deletes;
        }
      }
    }

    method Apply(actions: seq<Action>)
      modifies this
      ensures labels == PerformAll(old(labels), actions)
    {
      for i := 0 to |actions|
        invariant labels == PerformAll(old(labels), actions[..i])
      {
        assert actions[..i + 1][..i] == actions[..i];
        labels := Perform(labels, actions[i]);
      }
      assert actions[..|actions|] == actions;
    }

    /** The whole script, not a dry run. */
    method Import(source: seq<Label>, existing: seq<Label>, deleteMissing: bool)
      requires Lists(existing, labels)
      modifies this
      ensures labels == Result(source, existing, old(labels), deleteMissing)
    {
      var actions := ComputePlan(source, existing, deleteMissing);
      Apply(actions);
    }
  }
}
