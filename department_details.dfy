/**
 * `DepartmentDetailsPage`: one department, the HR assigned to it and its
 * equipment. The pure parts are the "add HR" option list, the option
 * labels, the grid rows and the delete gating; the stateful part is the
 * refresh, which fetches the department, its assignments, its equipment
 * and its local unit in that order.
 */
module DepartmentDetails {
  import opened Wrappers
  import JsValues
  import DepartmentsServices

  type Value = JsValues.Value
  type Record = JsValues.Record
  type Outcome<T> = DepartmentsServices.Outcome<T>

  /** `hrd.some(h => h.id === x.id)`: the HR record is already assigned to the department. */
  predicate Assigned(x: Record, hrd: seq<Record>)
  {
    exists i :: 0 <= i < |hrd| && JsValues.Get(hrd[i], "id") == JsValues.Get(x, "id")
  }

  /** `r` lists elements of `s` in the order `s` has them. */
  predicate SubsequenceOf(r: seq<Record>, s: seq<Record>)
    decreases |s|
  {
    r == [] || (s != [] && ((r[0] == s[0] && SubsequenceOf(r[1..], s[1..])) || SubsequenceOf(r, s[1..])))
  }

  /** The options of the "add HR" selector: the company's HR records not yet in the department. */
  function AddHROptions(hr: seq<Record>, hrd: seq<Record>): (r: seq<Record>)
    ensures forall x :: x in r <==> x in hr && !Assigned(x, hrd)
    ensures SubsequenceOf(r, hr)
    ensures forall x :: multiset(r)[x] == if Assigned(x, hrd) then 0 else multiset(hr)[x]
  {
    if hr == [] then []
    else
      var rest := AddHROptions(hr[1..], hrd);
      assert multiset(hr) == multiset{hr[0]} + multiset(hr[1..]) by {
        assert hr == [hr[0]] + hr[1..];
      }
      if Assigned(hr[0], hrd) then rest else [hr[0]] + rest
  }

  /** `option?.name + " " + option?.surname + " (" + option?.fiscalCode + ")"`. */
  function OptionLabel(option: Record): (r: string)
    ensures var name := JsValues.ToText(JsValues.Get(option, "name"));
            var code := JsValues.ToText(JsValues.Get(option, "fiscalCode"));
            var surname := JsValues.ToText(JsValues.Get(option, "surname"));
            |r| == |name| + |surname| + |code| + 4 &&
            r[..|name|] == name &&
            r[|name|..|name| + 1 + |surname|] == " " + surname &&
            r[|r| - |code| - 3..] == " (" + code + ")"
  {
    var name := JsValues.ToText(JsValues.Get(option, "name"));
    var surname := JsValues.ToText(JsValues.Get(option, "surname"));
    var code := JsValues.ToText(JsValues.Get(option, "fiscalCode"));
    LabelParts(name, surname, code);
    name + " " + surname + " (" + code + ")"
  }

  lemma LabelParts(name: string, surname: string, code: string)
    ensures var r := name + " " + surname + " (" + code + ")";
            |r| == |name| + |surname| + |code| + 4 &&
            r[..|name|] == name &&
            r[|name|..|name| + 1 + |surname|] == " " + surname &&
            r[|r| - |code| - 3..] == " (" + code + ")"
  {
    var r := name + " " + surname + " (" + code + ")";
    assert r == (name + " " + surname) + (" (" + code + ")");
    assert r == name + (" " + surname) + (" (" + code + ")");
  }

  /** Two options whose fiscal codes differ but have the same length never share a label. */
  lemma LabelsTellFiscalCodesApart(a: Record, b: Record)
    requires |JsValues.ToText(JsValues.Get(a, "fiscalCode"))| == |JsValues.ToText(JsValues.Get(b, "fiscalCode"))|
    requires JsValues.ToText(JsValues.Get(a, "fiscalCode")) != JsValues.ToText(JsValues.Get(b, "fiscalCode"))
    ensures OptionLabel(a) != OptionLabel(b)
  {
    LabelsDiffer(JsValues.ToText(JsValues.Get(a, "name")), JsValues.ToText(JsValues.Get(a, "surname")),
                 JsValues.ToText(JsValues.Get(a, "fiscalCode")),
                 JsValues.ToText(JsValues.Get(b, "name")), JsValues.ToText(JsValues.Get(b, "surname")),
                 JsValues.ToText(JsValues.Get(b, "fiscalCode")));
  }

  lemma LabelsDiffer(na: string, sa: string, ca: string, nb: string, sb: string, cb: string)
    requires |ca| == |cb| && ca != cb
    ensures na + " " + sa + " (" + ca + ")" != nb + " " + sb + " (" + cb + ")"
  {
    var la := na + " " + sa + " (" + ca + ")";
    var lb := nb + " " + sb + " (" + cb + ")";
    LabelParts(na, sa, ca);
    LabelParts(nb, sb, cb);
    if la == lb {
      SuffixDetermines(la, ca, cb);
    }
  }

  lemma SuffixDetermines(l: string, ca: string, cb: string)
    requires |ca| == |cb| && |ca| + 3 <= |l|
    requires l[|l| - |ca| - 3..] == " (" + ca + ")"
    requires l[|l| - |cb| - 3..] == " (" + cb + ")"
    ensures ca == cb
  {
    assert ca == (" (" + ca + ")")[2..|ca| + 2];
    assert cb == (" (" + cb + ")")[2..|cb| + 2];
  }

  /** The properties of an assignment shown in the HR grid. */
  const HRRowFields: set<string> := {
    "id", "name", "surname", "startDate", "endDate", "fiscalCode", "phone", "email",
    "birthDate", "birthPlace", "address", "municipality", "province", "postalCode", "country"
  }

  /** One grid row: each shown property copied from the merged assignment, `undefined` when absent. */
  function HRRow(x: Record): (r: Record)
    ensures r.Keys == HRRowFields
    ensures forall k :: k in HRRowFields ==> r[k] == JsValues.Get(x, k)
  {
    map k | k in HRRowFields :: JsValues.Get(x, k)
  }

  /** `HRsRows`: one row per assignment, in the same order. */
  function HRsRows(hrd: seq<Record>): (r: seq<Record>)
    ensures |r| == |hrd|
    ensures forall i :: 0 <= i < |hrd| ==>
      r[i].Keys == HRRowFields &&
      r[i]["id"] == JsValues.Get(hrd[i], "id") &&
      r[i]["startDate"] == JsValues.Get(hrd[i], "startDate") &&
      r[i]["endDate"] == JsValues.Get(hrd[i], "endDate")
  {
    seq(|hrd|, i requires 0 <= i < |hrd| => HRRow(hrd[i]))
  }

  /** `disabled={e.row.endDate !== null}`: only an assignment with a null end date can be removed. */
  predicate DeleteEnabled(row: Record)
  {
    JsValues.Get(row, "endDate") == JsValues.Null
  }

  /**
   * For a row built from a merged assignment, removal is offered exactly when
   * the join record's end date is null (an absent end date disables it too),
   * and the row id that the removal sends is the HR record's own id.
   */
  lemma RowOfMergedAssignment(hr: Record, link: Record)
    ensures DeleteEnabled(HRRow(DepartmentsServices.Merge(hr, link))) <==> JsValues.Get(link, "endDate") == JsValues.Null
    ensures HRRow(DepartmentsServices.Merge(hr, link))["id"] == JsValues.Get(hr, "id")
  {
    var m := DepartmentsServices.Merge(hr, link);
    assert "id" !in {"hrDepartmentId", "startDate", "endDate"};
    assert JsValues.Get(m, "id") == JsValues.Get(hr, "id");
  }

  /** The removal a confirmed click on a row's delete button sends, if the button is enabled. */
  function RemoveRequest(departmentId: Value, row: Record, confirmed: bool, token: Value): (r: Option<DepartmentsServices.Request>)
    ensures r.Some? <==> DeleteEnabled(row) && confirmed
    ensures r.Some? ==> r.value.verb == DepartmentsServices.DELETE &&
                        r.value.path == DepartmentsServices.AssignmentPath(departmentId, JsValues.Get(row, "id"))
  {
    if DeleteEnabled(row) && confirmed
    then Some(DepartmentsServices.RequestOf(DepartmentsServices.RemoveHR(departmentId, JsValues.Get(row, "id")), token))
    else None
  }

  /** `handleSubmitEdit`: the department sent back holds only the form's name. */
  function EditPayload(formName: Value): (r: Record)
    ensures r.Keys == {"name"} && r["name"] == formName
  {
    map["name" := formName]
  }

  /** The update `handleSubmitEdit` sends. */
  function SubmitEditRequest(departmentId: Value, formName: Value, token: Value): (r: DepartmentsServices.Request)
    ensures r.verb == DepartmentsServices.PUT
    ensures r.path == DepartmentsServices.DepartmentPath(departmentId)
    ensures r.body == Some(map["name" := formName])
  {
    DepartmentsServices.RequestOf(DepartmentsServices.UpdateDepartment(departmentId, EditPayload(formName)), token)
  }

  /** A request issued by `fetchData`: a department service, or the local unit lookup. */
  datatype Call = Service(endpoint: DepartmentsServices.Endpoint) | LocalUnitCall(localUnitId: Value)

  /** The page's state. */
  class DepartmentDetailsPage {
    var loading: bool
    var updatedTime: string
    var selectedHR: Option<Record>
    var department: Record
    var hrd: seq<Record>
    var equipments: seq<Record>
    var localUnit: Record
    var hr: seq<Record>
    var startDate: Value
    const endDate: Value
    /** Alerts raised for rejected requests. */
    var alerts: nat

    /** The first render: loading, empty records and lists, no HR selected, an open-ended assignment date range. */
    constructor (now: string, today: Value)
      ensures loading && updatedTime == now && selectedHR == None
      ensures department == map[] && hrd == [] && equipments == [] && localUnit == map[] && hr == []
      ensures startDate == today && endDate == JsValues.Null && alerts == 0
    {
      loading := true;
      updatedTime := now;
      selectedHR := None;
      department := map[];
      hrd := [];
      equipments := [];
      localUnit := map[];
      hr := [];
      startDate := today;
      endDate := JsValues.Null;
      alerts := 0;
    }

    /** The synchronous part of `handleRefresh`, before the fetch is awaited. */
    method BeginRefresh(now: string)
      modifies this`loading, this`updatedTime, this`selectedHR
      ensures loading && updatedTime == now && selectedHR == None
    {
      loading := true;
      updatedTime := now;
      selectedHR := None;
    }

    /**
     * `fetchData`: awaits the department, its assignments, its equipment,
     * then the local unit the department names, each only after the one
     * before resolved; the state is written only once all four resolved.
     */
    method FetchData(departmentId: Value,
                     getDepartment: Value -> Outcome<Record>,
                     getAssignments: Value -> Outcome<seq<Record>>,
                     getEquipments: Value -> Outcome<seq<Record>>,
                     getLocalUnit: Value -> Outcome<Record>)
      returns (ok: bool, calls: seq<Call>)
      modifies this`department, this`hrd, this`equipments, this`localUnit
      ensures 1 <= |calls| <= 4
      ensures calls[0] == Service(DepartmentsServices.GetDepartment(departmentId))
      ensures |calls| == 1 <==> getDepartment(departmentId).Failed?
      ensures |calls| >= 2 ==> calls[1] == Service(DepartmentsServices.GetAllHR(departmentId))
      ensures |calls| == 2 ==> getAssignments(departmentId).Failed?
      ensures |calls| >= 3 ==>
        calls[2] == Service(DepartmentsServices.GetAllEquipments(departmentId)) && getAssignments(departmentId).Resolved?
      ensures |calls| == 3 ==> getEquipments(departmentId).Failed?
      ensures |calls| == 4 ==>
        getEquipments(departmentId).Resolved? &&
        calls[3] == LocalUnitCall(JsValues.Get(getDepartment(departmentId).value, "localUnitId"))
      ensures ok <==> |calls| == 4 && getLocalUnit(calls[3].localUnitId).Resolved?
      ensures ok ==> department == getDepartment(departmentId).value &&
                     hrd == getAssignments(departmentId).value &&
                     equipments == getEquipments(departmentId).value &&
                     localUnit == getLocalUnit(calls[3].localUnitId).value
      ensures !ok ==> department == old(department) && hrd == old(hrd) &&
                      equipments == old(equipments) && localUnit == old(localUnit)
    {
      calls := [Service(DepartmentsServices.GetDepartment(departmentId))];
      var dep := getDepartment(departmentId);
      if dep.Failed? {
        return false, calls;
      }
      calls := calls + [Service(DepartmentsServices.GetAllHR(departmentId))];
      var assignments := getAssignments(departmentId);
      if assignments.Failed? {
        return false, calls;
      }
      calls := calls + [Service(DepartmentsServices.GetAllEquipments(departmentId))];
      var equipment := getEquipments(departmentId);
      if equipment.Failed? {
        return false, calls;
      }
      var localUnitId := JsValues.Get(dep.value, "localUnitId");
      calls := calls + [LocalUnitCall(localUnitId)];
      var unit := getLocalUnit(localUnitId);
      if unit.Failed? {
        return false, calls;
      }
      department := dep.value;
      hrd := assignments.value;
      equipments := equipment.value;
      localUnit := unit.value;
      ok := true;
    }

    /** The continuation of `handleRefresh`: loading ends either way; a rejection raises an alert. */
    method SettleRefresh(ok: bool)
      modifies this`loading, this`alerts
      ensures !loading
      ensures alerts == if ok then old(alerts) else old(alerts) + 1
    {
      if !ok {
        alerts := alerts + 1;
      }
      loading := false;
    }

    /** `handleRefresh` run to completion. */
    method HandleRefresh(now: string, departmentId: Value,
                         getDepartment: Value -> Outcome<Record>,
                         getAssignments: Value -> Outcome<seq<Record>>,
                         getEquipments: Value -> Outcome<seq<Record>>,
                         getLocalUnit: Value -> Outcome<Record>)
      returns (ok: bool, calls: seq<Call>)
      modifies this`loading, this`updatedTime, this`selectedHR, this`alerts
      modifies this`department, this`hrd, this`equipments, this`localUnit
      ensures !loading && selectedHR == None && updatedTime == now
      ensures alerts == if ok then old(alerts) else old(alerts) + 1
      ensures 1 <= |calls| <= 4 && calls[0] == Service(DepartmentsServices.GetDepartment(departmentId))
      ensures ok <==>
        getDepartment(departmentId).Resolved? && getAssignments(departmentId).Resolved? &&
        getEquipments(departmentId).Resolved? &&
        getLocalUnit(JsValues.Get(getDepartment(departmentId).value, "localUnitId")).Resolved?
      ensures |calls| == 4 ==>
        getDepartment(departmentId).Resolved? &&
        calls[3] == LocalUnitCall(JsValues.Get(getDepartment(departmentId).value, "localUnitId"))
      ensures ok <==> |calls| == 4 && getLocalUnit(calls[3].localUnitId).Resolved?
      ensures ok ==>
        department == getDepartment(departmentId).value && hrd == getAssignments(departmentId).value &&
        equipments == getEquipments(departmentId).value &&
        localUnit == getLocalUnit(calls[3].localUnitId).value
      ensures !ok ==> department == old(department) && hrd == old(hrd) &&
                      equipments == old(equipments) && localUnit == old(localUnit)
    {
      BeginRefresh(now);
      ok, calls := FetchData(departmentId, getDepartment, getAssignments, getEquipments, getLocalUnit);
      SettleRefresh(ok);
    }

    /** `getHRs`: the options are drawn from the company's HR list once it resolves. */
    method LoadCompanyHR(companyHR: seq<Record>)
      modifies this`hr
      ensures hr == companyHR
    {
      hr := companyHR;
    }

    /** The selector's `onChange`. */
    method SelectHR(newValue: Option<Record>)
      modifies this`selectedHR
      ensures selectedHR == newValue
    {
      selectedHR := newValue;
    }

    /**
     * `handleAddHR`: with no HR selected, reading `selectedHR.id` throws
     * before any request; otherwise the assignment is created with the
     * chosen start date and a null end date.
     */
    function AddHRRequest(departmentId: Value, token: Value): (r: Option<DepartmentsServices.Request>)
      reads this
      ensures r.Some? <==> selectedHR.Some?
      ensures r.Some? ==>
        r.value.verb == DepartmentsServices.PUT &&
        r.value.path == DepartmentsServices.AssignmentPath(departmentId, JsValues.Get(selectedHR.value, "id")) &&
        r.value.body == Some(map["startDate" := startDate, "endDate" := endDate])
    {
      match selectedHR
      case None => None
      case Some(x) =>
        Some(DepartmentsServices.RequestOf(
          DepartmentsServices.AddHR(departmentId, JsValues.Get(x, "id"), map["startDate" := startDate, "endDate" := endDate]),
          token))
    }
  }
}
