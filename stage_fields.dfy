/**
 * The stage-dependent update forms: `UpdateVisitForm` and
 * `UpdateProductInterestedForm`.  Each starts from the field table its model
 * form produces, makes a fixed list of fields optional, and then adjusts
 * `required`, the widget and the choices according to the visit's stage and
 * contract outcome.
 */
module StageFields {
  import opened Wrappers
  import Records

  datatype Widget = TextInput | Select | NumberInput | CheckboxInput | Textarea | HiddenInput

  /**
   * A form field as far as the stage rules touch it; `hiddenAttr` says
   * whether its widget carries an HTML `hidden` attribute.
   */
  datatype Field = Field(required: bool, widget: Widget, hiddenAttr: bool, choices: seq<string>)

  type FieldTable = map<string, Field>

  const ProposalOrNegotiation := "Proposal or Negotiation"
  const Closing := "Closing"
  const PaymentFollowup := "Payment Followup"
  const Won := "Won"
  const Lost := "Lost"

  /** The fields `UpdateVisitForm` resets. */
  const VisitStageFields: seq<string> :=
    ["is_order_final", "contract_outcome", "contract_amount", "reason_lost", "is_payment_collected"]

  /** The fields `UpdateProductInterestedForm` resets. */
  const ProductStageFields: seq<string> := ["order_estimate", "final_order_amount", "payment_collected"]

  /** A freshly built widget replaces the old one, so no `hidden` attribute survives. */
  function WithWidget(f: Field, w: Widget): Field {
    f.(widget := w, hiddenAttr := false)
  }

  /** One step of a reset loop: optional, and without `hidden` when `dropHidden`. */
  function Relaxed(f: Field, dropHidden: bool): Field {
    f.(required := false, hiddenAttr := if dropHidden then false else f.hiddenAttr)
  }

  /** The table after a reset loop over `names`. */
  function ResetFields(t: FieldTable, names: seq<string>, dropHidden: bool): (r: FieldTable)
    ensures r.Keys == t.Keys
    ensures forall k :: k in r && k in names ==> !r[k].required && (dropHidden ==> !r[k].hiddenAttr)
    ensures forall k :: k in r && k !in names ==> r[k] == t[k]
    ensures forall k :: k in r ==> r[k].widget == t[k].widget && r[k].choices == t[k].choices
    ensures forall k :: k in r && !dropHidden ==> r[k].hiddenAttr == t[k].hiddenAttr
  {
    map k | k in t :: if k in names then Relaxed(t[k], dropHidden) else t[k]
  }

  /** One more turn of a reset loop updates the one field it names. */
  lemma ResetStep(t: FieldTable, names: seq<string>, f: string, dropHidden: bool)
    ensures var r := ResetFields(t, names, dropHidden);
      ResetFields(t, names + [f], dropHidden) == if f in r then r[f := Relaxed(r[f], dropHidden)] else r
  {
    var r := ResetFields(t, names, dropHidden);
    var s := ResetFields(t, names + [f], dropHidden);
    var u := if f in r then r[f := Relaxed(r[f], dropHidden)] else r;
    assert s.Keys == u.Keys;
    forall k | k in s ensures s[k] == u[k] {
      assert k in names + [f] <==> k in names || k == f;
    }
  }

  // ---------------------------------------------------------------------
  // UpdateVisitForm
  // ---------------------------------------------------------------------

  /** The fields `UpdateVisitForm`'s stage branches index without checking that they exist. */
  predicate VisitKeysPresent(t: FieldTable, stage: Option<string>, outcome: Option<string>) {
    (stage == Some(ProposalOrNegotiation) ==> "is_order_final" in t) &&
    (stage == Some(Closing) ==>
      "contract_outcome" in t &&
      (outcome == Some(Won) ==> "contract_amount" in t && "is_payment_collected" in t) &&
      (outcome == Some(Lost) ==> "reason_lost" in t)) &&
    (stage == Some(PaymentFollowup) ==> "is_payment_collected" in t)
  }

  /** The stage branches; `outcome` is the contract outcome stored on the instance. */
  function ApplyVisitStage(t: FieldTable, stage: Option<string>, outcome: Option<string>): (r: FieldTable)
    requires VisitKeysPresent(t, stage, outcome)
    ensures r.Keys == t.Keys
    ensures forall k :: k in t && k !in VisitStageFields ==> r[k] == t[k]
    ensures forall k :: k in t && k != "contract_outcome" ==> r[k].required == t[k].required
    ensures forall k :: k in t && r[k] != t[k] ==> !r[k].hiddenAttr
    ensures stage !in {Some(ProposalOrNegotiation), Some(Closing), Some(PaymentFollowup)} ==> r == t
  {
    if stage == Some(ProposalOrNegotiation) then
      t["is_order_final" := WithWidget(t["is_order_final"], CheckboxInput)]
    else if stage == Some(Closing) then
      var t1 := t["contract_outcome" := WithWidget(t["contract_outcome"], Select).(choices := [Won, Lost], required := true)];
      if outcome == Some(Won) then
        t1["contract_amount" := WithWidget(t1["contract_amount"], NumberInput)]
          ["is_payment_collected" := WithWidget(t1["is_payment_collected"], CheckboxInput)]
      else if outcome == Some(Lost) then
        t1["reason_lost" := WithWidget(t1["reason_lost"], Textarea)]
      else t1
    else if stage == Some(PaymentFollowup) then
      t["is_payment_collected" := WithWidget(t["is_payment_collected"], CheckboxInput)]
    else t
  }

  /** The field table `UpdateVisitForm.__init__` leaves behind. */
  function VisitFieldTable(base: FieldTable, stage: Option<string>, outcome: Option<string>): (r: FieldTable)
    requires VisitKeysPresent(base, stage, outcome)
    ensures r.Keys == base.Keys
  {
    ApplyVisitStage(ResetFields(base, VisitStageFields, true), stage, outcome)
  }

  class UpdateVisitForm {
    var fields: FieldTable

    /** `__init__(stage=...)` over the table the model form built, for a stored `instance`. */
    constructor (base: FieldTable, stage: Option<string>, instance: Records.VisitRecord)
      requires VisitKeysPresent(base, stage, instance.contractOutcome)
      ensures fields == VisitFieldTable(base, stage, instance.contractOutcome)
    {
      fields := base;
      new;
      for i := 0 to |VisitStageFields|
        invariant fields == ResetFields(base, VisitStageFields[..i], true)
      {
        var f := VisitStageFields[i];
        assert VisitStageFields[..i + 1] == VisitStageFields[..i] + [f];
        ResetStep(base, VisitStageFields[..i], f, true);
        if f in fields {
          fields := fields[f := Relaxed(fields[f], true)];
        }
      }
      assert VisitStageFields[..|VisitStageFields|] == VisitStageFields;
      ghost var reset := fields;
      var outcome := instance.contractOutcome;
      if stage == Some(ProposalOrNegotiation) {
        fields := fields["is_order_final" := WithWidget(fields["is_order_final"], CheckboxInput)];
      } else if stage == Some(Closing) {
        fields := fields["contract_outcome" := WithWidget(fields["contract_outcome"], Select)];
        fields := fields["contract_outcome" := fields["contract_outcome"].(choices := [Won, Lost])];
        fields := fields["contract_outcome" := fields["contract_outcome"].(required := true)];
        ghost var t1 := fields;
        assert t1 == reset["contract_outcome" := WithWidget(reset["contract_outcome"], Select).(choices := [Won, Lost], required := true)];
        if outcome == Some(Won) {
          fields := fields["contract_amount" := WithWidget(fields["contract_amount"], NumberInput)];
          fields := fields["is_payment_collected" := WithWidget(fields["is_payment_collected"], CheckboxInput)];
        } else if outcome == Some(Lost) {
          fields := fields["reason_lost" := WithWidget(fields["reason_lost"], Textarea)];
        }
      } else if stage == Some(PaymentFollowup) {
        fields := fields["is_payment_collected" := WithWidget(fields["is_payment_collected"], CheckboxInput)];
      }
      assert fields == ApplyVisitStage(reset, stage, outcome);
    }
  }

  /** The form changes only the five stage fields and keeps every key. */
  lemma VisitOtherFieldsUntouched(base: FieldTable, stage: Option<string>, outcome: Option<string>)
    requires VisitKeysPresent(base, stage, outcome)
    ensures VisitFieldTable(base, stage, outcome).Keys == base.Keys
    ensures forall k :: k in base && k !in VisitStageFields ==> VisitFieldTable(base, stage, outcome)[k] == base[k]
  {
  }

  /** Whatever the stage, none of the five stage fields keeps a `hidden` attribute. */
  lemma VisitStageFieldsShown(base: FieldTable, stage: Option<string>, outcome: Option<string>)
    requires VisitKeysPresent(base, stage, outcome)
    ensures forall k :: k in base && k in VisitStageFields ==> !VisitFieldTable(base, stage, outcome)[k].hiddenAttr
  {
  }

  /** Outside "Closing" (any other value included) none of the five stage fields is required. */
  lemma VisitOptionalOutsideClosing(base: FieldTable, stage: Option<string>, outcome: Option<string>)
    requires VisitKeysPresent(base, stage, outcome)
    requires stage != Some(Closing)
    ensures forall k :: k in base && k in VisitStageFields ==> !VisitFieldTable(base, stage, outcome)[k].required
  {
  }

  /** Under "Closing" exactly `contract_outcome` is required, offered as a choice of Won or Lost. */
  lemma VisitClosingRequiresOnlyOutcome(base: FieldTable, outcome: Option<string>)
    requires VisitKeysPresent(base, Some(Closing), outcome)
    ensures var t := VisitFieldTable(base, Some(Closing), outcome);
      (forall k :: k in base && k in VisitStageFields ==> (t[k].required <==> k == "contract_outcome")) &&
      t["contract_outcome"].choices == [Won, Lost] && t["contract_outcome"].widget == Select
  {
  }

  /**
   * Under "Closing" the extra widgets follow the outcome stored on the
   * instance: amount and payment for Won, the reason for Lost, none otherwise.
   */
  lemma VisitClosingWidgetsFollowStoredOutcome(base: FieldTable, outcome: Option<string>)
    requires VisitKeysPresent(base, Some(Closing), outcome)
    ensures var t := VisitFieldTable(base, Some(Closing), outcome);
      (outcome == Some(Won) ==>
        t["contract_amount"].widget == NumberInput && t["is_payment_collected"].widget == CheckboxInput) &&
      (outcome == Some(Lost) ==> t["reason_lost"].widget == Textarea) &&
      (forall k :: k in base && k in ["contract_amount", "is_payment_collected"] && outcome != Some(Won) ==>
        t[k].widget == base[k].widget) &&
      (forall k :: k in base && k == "reason_lost" && outcome != Some(Lost) ==> t[k].widget == base[k].widget)
  {
  }

  // ---------------------------------------------------------------------
  // UpdateProductInterestedForm
  // ---------------------------------------------------------------------

  function RequireField(t: FieldTable, k: string): FieldTable {
    if k in t then t[k := t[k].(required := true)] else t
  }

  function ReplaceWidget(t: FieldTable, k: string, w: Widget): FieldTable {
    if k in t then t[k := WithWidget(t[k], w)] else t
  }

  /** The stage branches; every field is touched only if the form has it. */
  function ApplyProductStage(t: FieldTable, stage: Option<string>, outcome: Option<string>): (r: FieldTable)
    ensures r.Keys == t.Keys
    ensures forall k :: k in t && k !in ProductStageFields ==> r[k] == t[k]
    ensures forall k :: k in t ==> r[k].choices == t[k].choices
    ensures stage !in {Some(ProposalOrNegotiation), Some(Closing), Some(PaymentFollowup)} ==> r == t
  {
    if stage == Some(ProposalOrNegotiation) then RequireField(t, "order_estimate")
    else if stage == Some(Closing) then
      if outcome == Some(Won) then
        ReplaceWidget(RequireField(t, "final_order_amount"), "payment_collected", NumberInput)
      else if outcome == Some(Lost) then
        ReplaceWidget(ReplaceWidget(t, "final_order_amount", HiddenInput), "payment_collected", HiddenInput)
      else t
    else if stage == Some(PaymentFollowup) then
      ReplaceWidget(RequireField(t, "payment_collected"), "payment_collected", NumberInput)
    else t
  }

  /** The field table `UpdateProductInterestedForm.__init__` leaves behind. */
  function ProductFieldTable(base: FieldTable, stage: Option<string>, outcome: Option<string>): (r: FieldTable)
    ensures r.Keys == base.Keys
  {
    ApplyProductStage(ResetFields(base, ProductStageFields, false), stage, outcome)
  }

  class UpdateProductInterestedForm {
    var fields: FieldTable

    /** `__init__(stage=..., contract_outcome=...)` over the table the model form built. */
    constructor (base: FieldTable, stage: Option<string>, contractOutcome: Option<string>)
      ensures fields == ProductFieldTable(base, stage, contractOutcome)
    {
      fields := base;
      new;
      for i := 0 to |ProductStageFields|
        invariant fields == ResetFields(base, ProductStageFields[..i], false)
      {
        var f := ProductStageFields[i];
        assert ProductStageFields[..i + 1] == ProductStageFields[..i] + [f];
        ResetStep(base, ProductStageFields[..i], f, false);
        if f in fields {
          fields := fields[f := fields[f].(required := false)];
        }
      }
      assert ProductStageFields[..|ProductStageFields|] == ProductStageFields;
      if stage == Some(ProposalOrNegotiation) {
        if "order_estimate" in fields {
          fields := fields["order_estimate" := fields["order_estimate"].(required := true)];
        }
      } else if stage == Some(Closing) {
        if contractOutcome == Some(Won) {
          if "final_order_amount" in fields {
            fields := fields["final_order_amount" := fields["final_order_amount"].(required := true)];
          }
          if "payment_collected" in fields {
            fields := fields["payment_collected" := WithWidget(fields["payment_collected"], NumberInput)];
          }
        } else if contractOutcome == Some(Lost) {
          if "final_order_amount" in fields {
            fields := fields["final_order_amount" := WithWidget(fields["final_order_amount"], HiddenInput)];
          }
          if "payment_collected" in fields {
            fields := fields["payment_collected" := WithWidget(fields["payment_collected"], HiddenInput)];
          }
        }
      } else if stage == Some(PaymentFollowup) {
        if "payment_collected" in fields {
          fields := fields["payment_collected" := fields["payment_collected"].(required := true)];
          fields := fields["payment_collected" := WithWidget(fields["payment_collected"], NumberInput)];
        }
      }
    }
  }

  /**
   * Each numeric field is required exactly at its own stage: the estimate
   * during "Proposal or Negotiation", the final amount when closing as Won,
   * the payment during "Payment Followup".
   */
  lemma ProductRequiredness(base: FieldTable, stage: Option<string>, outcome: Option<string>)
    ensures var t := ProductFieldTable(base, stage, outcome);
      ("order_estimate" in base ==> (t["order_estimate"].required <==> stage == Some(ProposalOrNegotiation))) &&
      ("final_order_amount" in base ==>
        (t["final_order_amount"].required <==> stage == Some(Closing) && outcome == Some(Won))) &&
      ("payment_collected" in base ==> (t["payment_collected"].required <==> stage == Some(PaymentFollowup)))
  {
  }

  /** At most one of the three numeric fields is required. */
  lemma ProductAtMostOneRequired(base: FieldTable, stage: Option<string>, outcome: Option<string>)
    ensures var t := ProductFieldTable(base, stage, outcome);
      forall j, k ::
        (j in base && k in base && j in ProductStageFields && k in ProductStageFields &&
         t[j].required && t[k].required) ==> j == k
  {
    ProductRequiredness(base, stage, outcome);
  }

  /** The outcome matters only under "Closing". */
  lemma ProductOutcomeIgnoredOutsideClosing(base: FieldTable, stage: Option<string>, a: Option<string>, b: Option<string>)
    requires stage != Some(Closing)
    ensures ProductFieldTable(base, stage, a) == ProductFieldTable(base, stage, b)
  {
  }

  /** Closing as Lost hides the final amount and the payment, and neither is required. */
  lemma ProductClosingLostHides(base: FieldTable)
    ensures var t := ProductFieldTable(base, Some(Closing), Some(Lost));
      forall k :: k in base && k in ["final_order_amount", "payment_collected"] ==>
        t[k].widget == HiddenInput && !t[k].required
  {
  }

  /** Closing as Won keeps the payment a visible number input that is not required. */
  lemma ProductClosingWonKeepsPaymentInput(base: FieldTable)
    requires "payment_collected" in base
    ensures var t := ProductFieldTable(base, Some(Closing), Some(Won));
      t["payment_collected"].widget == NumberInput && !t["payment_collected"].required
  {
  }

  /** The form changes only the three numeric fields and keeps every key. */
  lemma ProductOtherFieldsUntouched(base: FieldTable, stage: Option<string>, outcome: Option<string>)
    ensures ProductFieldTable(base, stage, outcome).Keys == base.Keys
    ensures forall k :: k in base && k !in ProductStageFields ==> ProductFieldTable(base, stage, outcome)[k] == base[k]
  {
  }
}
