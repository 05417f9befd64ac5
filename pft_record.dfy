/**
 * The session's PFT record (app.py `st.session_state.pft_data`): a dictionary
 * from field name to number that starts with nine fields at zero, is updated in
 * place with whatever the extractor returned, is overwritten field by field from
 * the verification form on every page run, and is judged "empty" by looking at
 * two of its fields only. The values are opaque numbers here: the application
 * only ever compares them with zero.
 */
module PftRecord {
  import opened Wrappers

  /** The dictionary: field name to value. */
  type Record = map<string, real>

  /** The nine fields of a fresh record. */
  const FieldKeys: set<string> :=
    {"FEV1", "FEV1_pred", "FVC", "FVC_pred", "FEV1_FVC", "TLC", "TLC_pred", "DLCO", "DLCO_pred"}

  /** The record holds (at least) the nine fields. */
  predicate HasAllFields(m: Record) {
    FieldKeys <= m.Keys
  }

  /** The record put in the session when it starts (app.py:43-50). */
  function DefaultRecord(): (r: Record)
    ensures r.Keys == FieldKeys
    ensures forall k :: k in r ==> r[k] == 0.0
  {
    map["FEV1" := 0.0, "FEV1_pred" := 0.0,
        "FVC" := 0.0, "FVC_pred" := 0.0,
        "FEV1_FVC" := 0.0,
        "TLC" := 0.0, "TLC_pred" := 0.0,
        "DLCO" := 0.0, "DLCO_pred" := 0.0]
  }

  /** Python's `m.update(e)`: every key of `e` is set to `e`'s value, every
      other key of `m` keeps its value, and nothing else is added. */
  function Update(m: Record, e: Record): (r: Record)
    ensures r.Keys == m.Keys + e.Keys
    ensures forall k :: k in e ==> r[k] == e[k]
    ensures forall k :: k in m && k !in e ==> r[k] == m[k]
  {
    m + e
  }

  /** Python's `m.get(k, d)`: the stored value when there is one, else the default. */
  function GetOr(m: Record, k: string, d: real): (r: real)
    ensures k in m ==> r == m[k]
    ensures r == d || r in m.Values
  {
    if k in m then m[k] else d
  }

  /** The "values seem to be empty" test (app.py:253): FEV1_FVC and FVC_pred
      both still hold the value a fresh record gives them. */
  predicate LooksEmpty(m: Record)
    requires "FEV1_FVC" in m && "FVC_pred" in m
    ensures LooksEmpty(m) <==>
      m["FEV1_FVC"] == DefaultRecord()["FEV1_FVC"] && m["FVC_pred"] == DefaultRecord()["FVC_pred"]
  {
    m["FEV1_FVC"] == 0.0 && m["FVC_pred"] == 0.0
  }

  /** What the nine number inputs of the verification form return on one page
      run (app.py:229-243), in the form's order. */
  datatype FormInput = FormInput(
    fev1: real, fev1Pred: real, fvc: real, fvcPred: real, fev1Fvc: real,
    tlc: real, tlcPred: real, dlco: real, dlcoPred: real)

  /** The form's answers as a record of the nine fields. */
  function FormRecord(f: FormInput): (r: Record)
    ensures r.Keys == FieldKeys
    ensures r["FEV1_FVC"] == f.fev1Fvc && r["FVC_pred"] == f.fvcPred
  {
    map["FEV1" := f.fev1, "FEV1_pred" := f.fev1Pred,
        "FVC" := f.fvc, "FVC_pred" := f.fvcPred,
        "FEV1_FVC" := f.fev1Fvc,
        "TLC" := f.tlc, "TLC_pred" := f.tlcPred,
        "DLCO" := f.dlco, "DLCO_pred" := f.dlcoPred]
  }

  /** The values the form's inputs start from: `float(pft_data.get(k, 0.0))`. */
  function Prefilled(m: Record): (f: FormInput)
    ensures forall k :: k in FieldKeys ==> FormRecord(f)[k] == GetOr(m, k, 0.0)
  {
    FormInput(
      GetOr(m, "FEV1", 0.0), GetOr(m, "FEV1_pred", 0.0),
      GetOr(m, "FVC", 0.0), GetOr(m, "FVC_pred", 0.0),
      GetOr(m, "FEV1_FVC", 0.0),
      GetOr(m, "TLC", 0.0), GetOr(m, "TLC_pred", 0.0),
      GetOr(m, "DLCO", 0.0), GetOr(m, "DLCO_pred", 0.0))
  }

  // ---------------------------------------------------------------------------
  // Properties of the record
  // ---------------------------------------------------------------------------

  /** A fresh record passes the emptiness test. */
  lemma FreshRecordLooksEmpty()
    ensures HasAllFields(DefaultRecord()) && LooksEmpty(DefaultRecord())
  {
  }

  /** Merging keeps the nine fields, whatever the extractor returned. */
  lemma UpdateKeepsFields(m: Record, e: Record)
    requires HasAllFields(m)
    ensures HasAllFields(Update(m, e))
  {
  }

  /** For a record that holds the nine fields, the form's own default of 0.0
      is never used: every input starts from the stored value. */
  lemma PrefilledShowsStoredValues(m: Record)
    requires HasAllFields(m)
    ensures FormRecord(Prefilled(m)) == map k | k in FieldKeys :: m[k]
  {
  }

  /** A page run on which nobody edits the form leaves the record as it was. */
  lemma UneditedFormKeepsRecord(m: Record)
    requires HasAllFields(m)
    ensures Update(m, FormRecord(Prefilled(m))) == m
  {
    var r := Update(m, FormRecord(Prefilled(m)));
    PrefilledShowsStoredValues(m);
    assert r.Keys == m.Keys;
    forall k | k in m ensures r[k] == m[k] {
      if k in FieldKeys {
        assert FormRecord(Prefilled(m))[k] == m[k];
      }
    }
  }

  /** The emptiness test reads FEV1_FVC and FVC_pred and nothing else: two
      records that agree on those two fields are judged alike. */
  lemma EmptinessReadsTwoFields(m1: Record, m2: Record)
    requires "FEV1_FVC" in m1 && "FVC_pred" in m1 && "FEV1_FVC" in m2 && "FVC_pred" in m2
    requires m1["FEV1_FVC"] == m2["FEV1_FVC"] && m1["FVC_pred"] == m2["FVC_pred"]
    ensures LooksEmpty(m1) <==> LooksEmpty(m2)
  {
  }

  /** After the form has run, the emptiness test is decided by the two values
      entered for FEV1/FVC and FVC % predicted. */
  lemma FormDecidesEmptiness(m: Record, f: FormInput)
    ensures var r := Update(m, FormRecord(f));
      "FEV1_FVC" in r && "FVC_pred" in r &&
      (LooksEmpty(r) <==> f.fev1Fvc == 0.0 && f.fvcPred == 0.0)
  {
  }

  /** A merge that supplies neither FEV1_FVC nor FVC_pred does not change the
      emptiness verdict; one that supplies both decides it. */
  lemma MergeAndEmptiness(m: Record, e: Record)
    requires HasAllFields(m)
    ensures var r := Update(m, e);
      && ("FEV1_FVC" !in e && "FVC_pred" !in e ==> (LooksEmpty(r) <==> LooksEmpty(m)))
      && ("FEV1_FVC" in e && "FVC_pred" in e ==>
            (LooksEmpty(r) <==> e["FEV1_FVC"] == 0.0 && e["FVC_pred"] == 0.0))
  {
  }

  /** The nine assignments of the form, one after the other, amount to one
      `update` with the form's record. */
  lemma AssignmentsAreUpdate(m: Record, f: FormInput)
    ensures m["FEV1" := f.fev1]["FEV1_pred" := f.fev1Pred]["FVC" := f.fvc]["FVC_pred" := f.fvcPred]
             ["FEV1_FVC" := f.fev1Fvc]["TLC" := f.tlc]["TLC_pred" := f.tlcPred]["DLCO" := f.dlco]
             ["DLCO_pred" := f.dlcoPred]
            == Update(m, FormRecord(f))
  {
    var a := m["FEV1" := f.fev1]["FEV1_pred" := f.fev1Pred]["FVC" := f.fvc]["FVC_pred" := f.fvcPred]
             ["FEV1_FVC" := f.fev1Fvc]["TLC" := f.tlc]["TLC_pred" := f.tlcPred]["DLCO" := f.dlco]
             ["DLCO_pred" := f.dlcoPred];
    var r := Update(m, FormRecord(f));
    assert a.Keys == r.Keys;
    forall k | k in a ensures a[k] == r[k] {
      if k in FieldKeys {
        assert k in FormRecord(f);
      }
    }
  }

  // ---------------------------------------------------------------------------
  // The session's record, updated in place
  // ---------------------------------------------------------------------------

  class PftSession {
    /** `st.session_state.pft_data`. */
    var data: Record

    ghost predicate Valid()
      reads this
    {
      HasAllFields(data)
    }

    /** The record is created once per session with the nine fields at zero (app.py:43-50). */
    constructor ()
      ensures Valid() && data == DefaultRecord()
    {
      data := DefaultRecord();
    }

    /** `pft_data.update(extracted_data)` (app.py:216): the supplied keys take
        the supplied values, every other key keeps its value, and keys the
        extractor invented are added. */
    method Merge(extracted: Record)
      requires Valid()
      modifies this
      ensures Valid()
      ensures data.Keys == old(data).Keys + extracted.Keys
      ensures forall k :: k in extracted ==> data[k] == extracted[k]
      ensures forall k :: k in old(data) && k !in extracted ==> data[k] == old(data)[k]
    {
      data := data + extracted;
    }

    /** app.py:214-216: the extractor's answer is merged only when there is one
        and it is not empty (Python's truthiness of the dictionary). */
    method AcceptExtraction(extracted: Option<Record>) returns (merged: bool)
      requires Valid()
      modifies this
      ensures Valid()
      ensures merged <==> extracted.Some? && |extracted.value| > 0
      ensures data == if merged then Update(old(data), extracted.value) else old(data)
    {
      merged := extracted.Some? && |extracted.value| > 0;
      if merged {
        Merge(extracted.value);
      }
    }

    /** The value a form input starts from (app.py:229-243, the `value=` argument). */
    function Prefill(key: string): (v: real)
      requires Valid() && key in FieldKeys
      reads this
      ensures v == data[key]
      ensures v == FormRecord(Prefilled(data))[key]
    {
      GetOr(data, key, 0.0)
    }

    /** `pft_data[key] = ...` for one field of the form. */
    method SetField(key: string, v: real)
      requires Valid()
      modifies this
      ensures Valid()
      ensures data == old(data)[key := v]
    {
      data := data[key := v];
    }

    /** The nine assignments of app.py:229-243, one after the other: each field of
        the form overwrites its key; keys outside the form keep their values. */
    method ApplyForm(f: FormInput)
      requires Valid()
      modifies this
      ensures Valid()
      ensures data == Update(old(data), FormRecord(f))
      ensures data.Keys == old(data).Keys
    {
      AssignmentsAreUpdate(data, f);
      SetField("FEV1", f.fev1);
      SetField("FEV1_pred", f.fev1Pred);
      SetField("FVC", f.fvc);
      SetField("FVC_pred", f.fvcPred);
      SetField("FEV1_FVC", f.fev1Fvc);
      SetField("TLC", f.tlc);
      SetField("TLC_pred", f.tlcPred);
      SetField("DLCO", f.dlco);
      SetField("DLCO_pred", f.dlcoPred);
    }

    /** The guard before analysis (app.py:253): true exactly when FEV1_FVC and
        FVC_pred are both zero, whatever the other fields hold. */
    predicate IsEmpty()
      requires Valid()
      reads this
      ensures IsEmpty() <==> data["FEV1_FVC"] == 0.0 && data["FVC_pred"] == 0.0
    {
      LooksEmpty(data)
    }
  }

  /** A session as Streamlit runs it: the record is created, a run on which
      "AI Extract Values" was pressed merges the extractor's answer and then
      runs the form, and a later run on which "Generate Expert Analysis" was
      pressed runs the form again and tests for emptiness (app.py:43-50,
      214-216, 229-243, 253). Whatever the extractor returned, the verdict is
      decided by the two values the form holds on the last run. */
  method ExtractThenAnalyse(extracted: Option<Record>, first: FormInput, last: FormInput)
    returns (empty: bool)
    ensures empty <==> last.fev1Fvc == 0.0 && last.fvcPred == 0.0
  {
    var session := new PftSession();
    var _ := session.AcceptExtraction(extracted);
    session.ApplyForm(first);
    ghost var before := session.data;
    session.ApplyForm(last);
    FormDecidesEmptiness(before, last);
    empty := session.IsEmpty();
  }
}
