/**
 * `departments.services`: the requests the department pages send, the rule
 * that turns an HTTP reply into the value a service resolves to, and
 * `getAllHR`, which rewrites the list of HR assignments in place with the
 * matching HR records.
 *
 * The transport is a parameter: a `Reply` is what the HTTP client produced
 * for a request, either a delivered response or a rejection.
 */
module DepartmentsServices {
  import opened Wrappers
  import Strings
  import JsValues

  type Value = JsValues.Value
  type Record = JsValues.Record

  /** The JSON body of a response: an object or an array of objects. */
  datatype Json = Obj(fields: Record) | Arr(items: seq<Record>)

  /** What the HTTP client produced: a response with its status, or a rejected promise. */
  datatype Reply = Delivered(status: int, data: Json) | Rejected

  /** How a service's promise settles: with a value, or rejected (the caller's `.catch` runs). */
  datatype Outcome<T> = Resolved(value: T) | Failed

  /**
   * What a service resolves to: the body (`data = res.data`), the whole
   * response (`response = res`), or the empty response object `{}` that
   * the functions returning a response start from.
   */
  datatype Resolution = Data(json: Json) | Response(status: int, data: Json) | EmptyResponse

  datatype Verb = GET | POST | PUT | DELETE

  datatype Request = Request(verb: Verb, path: string, headers: map<string, string>, body: Option<Record>)

  /** The service functions of the module, with their arguments. */
  datatype Endpoint =
    | GetAllDepartments(companyId: Value)
    | GetDepartment(departmentId: Value)
    | CreateDepartment(companyId: Value, department: Record)
    | UpdateDepartment(id: Value, department: Record)
    | DeleteDepartment(id: Value)
    | GetAllHR(departmentId: Value)
    | AddHR(departmentId: Value, hrId: Value, dates: Record)
    | RemoveHR(departmentId: Value, hrId: Value)
    | GetAllEquipments(departmentId: Value)

  /** Whether the service resolves to a list (whose empty default is `[]`). */
  predicate ReturnsList(e: Endpoint)
  {
    e.GetAllDepartments? || e.GetAllHR? || e.GetAllEquipments?
  }

  /** Whether the service resolves to the whole response rather than its body. */
  predicate ReturnsResponse(e: Endpoint)
  {
    e.UpdateDepartment? || e.DeleteDepartment? || e.AddHR? || e.RemoveHR?
  }

  /** The one status each service accepts as success. */
  function AcceptedStatus(e: Endpoint): (r: int)
    ensures r == 201 <==> e.CreateDepartment?
    ensures r == 200 <==> !e.CreateDepartment?
  {
    if e.CreateDepartment? then 201 else 200
  }

  /** The value a service starts from and keeps when the status is not accepted. */
  function EmptyDefault(e: Endpoint): (r: Resolution)
    ensures ReturnsList(e) ==> r == Data(Arr([]))
    ensures ReturnsResponse(e) ==> r == EmptyResponse
    ensures !ReturnsList(e) && !ReturnsResponse(e) ==> r == Data(Obj(map[]))
  {
    if ReturnsList(e) then Data(Arr([]))
    else if ReturnsResponse(e) then EmptyResponse
    else Data(Obj(map[]))
  }

  /** The header every request carries: the bearer token read from the "token" cookie. */
  function AuthHeaders(token: Value): map<string, string>
  {
    map["Authorization" := "Bearer " + JsValues.ToText(token)]
  }

  /** `/departments/{id}`: the department resource, which the read, update and delete address. */
  function DepartmentPath(id: Value): string
  {
    "/departments/" + JsValues.ToText(id)
  }

  /**
   * The request a service sends; identifiers enter the path as
   * template-literal text. The HR, assignment and equipment paths lie
   * below the department's own path.
   */
  function RequestOf(e: Endpoint, token: Value): (r: Request)
    ensures r.headers == map["Authorization" := "Bearer " + JsValues.ToText(token)]
    ensures r.verb == GET <==> e.GetAllDepartments? || e.GetDepartment? || e.GetAllHR? || e.GetAllEquipments?
    ensures r.verb == POST <==> e.CreateDepartment?
    ensures r.verb == PUT <==> e.UpdateDepartment? || e.AddHR?
    ensures r.verb == DELETE <==> e.DeleteDepartment? || e.RemoveHR?
    ensures r.body.Some? <==> r.verb == POST || r.verb == PUT
    ensures e.GetAllDepartments? ==> r.path == "/companies/" + JsValues.ToText(e.companyId) + "/departments"
    ensures e.GetDepartment? ==> r.path == DepartmentPath(e.departmentId)
    ensures e.CreateDepartment? ==> r.body == Some(e.department) && r.path == "/departments"
    ensures e.UpdateDepartment? ==> r.body == Some(e.department) && r.path == DepartmentPath(e.id)
    ensures e.DeleteDepartment? ==> r.path == DepartmentPath(e.id)
    ensures e.GetAllHR? ==> r.path == DepartmentPath(e.departmentId) + "/hr"
    ensures e.AddHR? ==> r.body == Some(e.dates) && r.path == AssignmentPath(e.departmentId, e.hrId)
    ensures e.RemoveHR? ==> r.path == AssignmentPath(e.departmentId, e.hrId)
    ensures e.AddHR? || e.RemoveHR? ==>
              r.path == DepartmentPath(e.departmentId) + "/hr/" + JsValues.ToText(e.hrId)
    ensures e.GetAllEquipments? ==> r.path == DepartmentPath(e.departmentId) + "/equipments"
  {
    var h := AuthHeaders(token);
    match e
    case GetAllDepartments(c) => Request(GET, "/companies/" + JsValues.ToText(c) + "/departments", h, None)
    case GetDepartment(d) => Request(GET, DepartmentPath(d), h, None)
    case CreateDepartment(_, dep) => Request(POST, "/departments", h, Some(dep))
    case UpdateDepartment(d, dep) => Request(PUT, DepartmentPath(d), h, Some(dep))
    case DeleteDepartment(d) => Request(DELETE, DepartmentPath(d), h, None)
    case GetAllHR(d) => Request(GET, DepartmentPath(d) + "/hr", h, None)
    case AddHR(d, hr, dates) => Request(PUT, AssignmentPath(d, hr), h, Some(dates))
    case RemoveHR(d, hr) => Request(DELETE, AssignmentPath(d, hr), h, None)
    case GetAllEquipments(d) => Request(GET, DepartmentPath(d) + "/equipments", h, None)
  }

  /** `/departments/{departmentId}/hr/{hrId}`: the assignment resource `addHR` and `removeHR` address. */
  function AssignmentPath(departmentId: Value, hrId: Value): string
  {
    "/departments/" + JsValues.ToText(departmentId) + "/hr/" + JsValues.ToText(hrId)
  }

  /** When both ids are single path segments, the server reads them back from the assignment path. */
  lemma AssignmentPathSegments(departmentId: Value, hrId: Value)
    requires JsValues.IsSegment(departmentId) && JsValues.IsSegment(hrId)
    ensures Strings.Split(AssignmentPath(departmentId, hrId), '/')
         == ["", "departments", JsValues.ToText(departmentId), "hr", JsValues.ToText(hrId)]
  {
    SplitAssignmentText(JsValues.ToText(departmentId), JsValues.ToText(hrId));
  }

  lemma SplitAssignmentText(d: string, h: string)
    requires '/' !in d && '/' !in h
    ensures Strings.Split("/departments/" + d + "/hr/" + h, '/') == ["", "departments", d, "hr", h]
  {
    SplitAssignmentNested(d, h);
    AssignmentNested(d, h);
  }

  lemma SplitAssignmentNested(d: string, h: string)
    requires '/' !in d && '/' !in h
    ensures Strings.Split("" + "/" + ("departments" + "/" + (d + "/" + ("hr" + "/" + h))), '/')
         == ["", "departments", d, "hr", h]
  {
    Strings.SplitPlain(h, '/');
    Strings.SplitFront("hr", '/', h);
    Strings.SplitFront(d, '/', "hr" + "/" + h);
    Strings.SplitFront("departments", '/', d + "/" + ("hr" + "/" + h));
    Strings.SplitFront("", '/', "departments" + "/" + (d + "/" + ("hr" + "/" + h)));
  }

  lemma AssignmentNested(d: string, h: string)
    ensures "/departments/" + d + "/hr/" + h == "" + "/" + ("departments" + "/" + (d + "/" + ("hr" + "/" + h)))
  {
  }

  /**
   * How a service settles. A rejected request rejects the service. A
   * delivered response with the accepted status yields its body or the
   * response; any other delivered status builds an `Error` that is returned
   * from the callback and never thrown, so the service resolves to its empty
   * default. Which statuses the HTTP client delivers rather than rejects is
   * its own configuration; under the client's default status check, only
   * 2xx replies are delivered.
   */
  function Settle(e: Endpoint, reply: Reply): (r: Outcome<Resolution>)
    ensures r.Failed? <==> reply.Rejected?
    ensures reply.Delivered? && reply.status != AcceptedStatus(e) ==> r == Resolved(EmptyDefault(e))
    ensures reply.Delivered? && reply.status == AcceptedStatus(e) && ReturnsResponse(e) ==>
              r == Resolved(Response(reply.status, reply.data))
    ensures reply.Delivered? && reply.status == AcceptedStatus(e) && !ReturnsResponse(e) ==>
              r == Resolved(Data(reply.data))
  {
    match reply
    case Rejected => Failed
    case Delivered(status, data) =>
      if status != AcceptedStatus(e) then Resolved(EmptyDefault(e))
      else if ReturnsResponse(e) then Resolved(Response(status, data))
      else Resolved(Data(data))
  }

  /**
   * A delivered reply with a status other than 200 (under the client's
   * default status check, a 2xx such as 204) makes a list service look
   * exactly like a successful empty list.
   */
  lemma ListErrorLooksEmpty(e: Endpoint, status: int, data: Json)
    requires ReturnsList(e) && status != 200
    ensures Settle(e, Delivered(status, data)) == Settle(e, Delivered(200, Arr([])))
  {
  }

  /** `createDepartment` treats a plain 200 as a failure and resolves to `{}`. */
  lemma CreateRejectsOk(companyId: Value, department: Record, data: Json)
    ensures Settle(CreateDepartment(companyId, department), Delivered(200, data)) == Resolved(Data(Obj(map[])))
  {
  }

  /**
   * `{...hr, hrDepartmentId, startDate, endDate}`: the HR record with the
   * three assignment fields of the join record laid over it.
   */
  function Merge(hr: Record, hrd: Record): (r: Record)
    ensures r.Keys == hr.Keys + {"hrDepartmentId", "startDate", "endDate"}
    ensures r["hrDepartmentId"] == JsValues.Get(hrd, "hrDepartmentId")
    ensures r["startDate"] == JsValues.Get(hrd, "startDate")
    ensures r["endDate"] == JsValues.Get(hrd, "endDate")
    ensures forall k :: k in hr && k !in {"hrDepartmentId", "startDate", "endDate"} ==> r[k] == hr[k]
  {
    hr["hrDepartmentId" := JsValues.Get(hrd, "hrDepartmentId")]
      ["startDate" := JsValues.Get(hrd, "startDate")]
      ["endDate" := JsValues.Get(hrd, "endDate")]
  }

  /** A JavaScript object, compared by reference; its properties are fixed once built. */
  class JsObject {
    const fields: Record

    constructor (fields: Record)
      ensures this.fields == fields
    {
      this.fields := fields;
    }
  }

  /** The properties of each object, in order. */
  function FieldsOf(s: seq<JsObject>): (r: seq<Record>)
    ensures |r| == |s| && forall i :: 0 <= i < |s| ==> r[i] == s[i].fields
  {
    seq(|s|, i requires 0 <= i < |s| => s[i].fields)
  }

  /** `a.indexOf(x)`: the first slot holding the very object `x`, or -1. */
  method IndexOf(a: array<JsObject>, x: JsObject) returns (r: int)
    ensures -1 <= r < a.Length
    ensures r >= 0 ==> a[r] == x && forall j :: 0 <= j < r ==> a[j] != x
    ensures r == -1 ==> forall j :: 0 <= j < a.Length ==> a[j] != x
  {
    r := 0;
    while r < a.Length
      invariant 0 <= r <= a.Length
      invariant forall j :: 0 <= j < r ==> a[j] != x
    {
      if a[r] == x {
        return;
      }
      r := r + 1;
    }
    r := -1;
  }

  /** The freshly parsed array of a response body: one new object per element. */
  method ParseArray(items: seq<Record>) returns (a: array<JsObject>)
    ensures fresh(a) && a.Length == |items|
    ensures forall i :: 0 <= i < |items| ==> a[i].fields == items[i]
  {
    var blank := new JsObject(map[]);
    a := new JsObject[|items|](_ => blank);
    var i := 0;
    while i < |items|
      invariant 0 <= i <= |items|
      invariant forall j :: 0 <= j < i ==> a[j].fields == items[j]
    {
      a[i] := new JsObject(items[i]);
      i := i + 1;
    }
  }

  /**
   * `getAllHR(departmentId)`. `reply` is the response to the assignment
   * request and `getHR` the outcome of fetching an HR record by id. The
   * `for...of` loop fetches the HR record of each join record in turn and
   * writes the merged record into the slot `indexOf` finds for it; the
   * first rejected fetch rejects the whole service.
   */
  method GetAllHRMerged(departmentId: Value, reply: Reply, getHR: Value -> Outcome<Record>)
    returns (r: Outcome<seq<Record>>)
    ensures reply.Rejected? ==> r.Failed?
    ensures reply.Delivered? && reply.status != 200 ==> r == Resolved([])
    ensures reply.Delivered? && reply.status == 200 && reply.data.Obj? ==> r.Failed?
    ensures reply.Delivered? && reply.status == 200 && reply.data.Arr? ==>
      var links := reply.data.items;
      (r.Resolved? <==> forall i :: 0 <= i < |links| ==> getHR(JsValues.Get(links[i], "hrId")).Resolved?) &&
      (r.Resolved? ==>
         |r.value| == |links| &&
         forall i :: 0 <= i < |links| ==>
           r.value[i] == Merge(getHR(JsValues.Get(links[i], "hrId")).value, links[i]))
  {
    var settled := Settle(GetAllHR(departmentId), reply);
    if settled.Failed? {
      return Failed;
    }
    var body := settled.value.json;
    if body.Obj? {
      // `for...of` over a plain object throws a TypeError.
      return Failed;
    }
    var links := body.items;
    var data := ParseArray(links);
    var ok := MergeInPlace(data, links, getHR);
    if !ok {
      return Failed;
    }
    r := Resolved(FieldsOf(data[..]));
  }

  /**
   * The `for...of` loop of `getAllHR` over the parsed array `data`: each
   * join record's HR record is fetched and the merge is written into the
   * slot `indexOf` finds for that join record. `ok` is false when a fetch
   * rejects, which ends the loop.
   */
  method MergeInPlace(data: array<JsObject>, links: seq<Record>, getHR: Value -> Outcome<Record>)
    returns (ok: bool)
    requires data.Length == |links|
    requires forall j :: 0 <= j < |links| ==> data[j].fields == links[j]
    modifies data
    ensures ok <==> forall i :: 0 <= i < |links| ==> getHR(JsValues.Get(links[i], "hrId")).Resolved?
    ensures ok ==> forall i :: 0 <= i < |links| ==>
      data[i].fields == Merge(getHR(JsValues.Get(links[i], "hrId")).value, links[i])
  {
    ghost var original := data[..];
    var i := 0;
    while i < data.Length
      invariant 0 <= i <= data.Length == |links| == |original|
      invariant forall j :: i <= j < data.Length ==> data[j] == original[j]
      invariant forall j, k :: 0 <= j < i <= k < data.Length ==> data[j] != original[k]
      invariant forall j :: 0 <= j < |original| ==> original[j].fields == links[j]
      invariant forall j :: 0 <= j < i ==>
        getHR(JsValues.Get(links[j], "hrId")).Resolved? &&
        data[j].fields == Merge(getHR(JsValues.Get(links[j], "hrId")).value, links[j])
    {
      var hrd := data[i];
      var hr := getHR(JsValues.Get(hrd.fields, "hrId"));
      if hr.Failed? {
        return false;
      }
      var k := IndexOf(data, hrd);
      assert k == i;
      data[k] := new JsObject(Merge(hr.value, hrd.fields));
      i := i + 1;
    }
    return true;
  }
}
