/** fetcher/metrics/marketplace.py: flatten the marketplace applications into
    one `(name, status)` record per scope of each application. */
module Marketplace {
  import opened Results
  import opened Json

  const ApplicationsPath := "/web/api/v2.1/singularity-marketplace/applications"

  /** `Integration_class`: an application's name and one scope's status. */
  datatype Integration = Integration(name: Json, status: Json)

  /** One application as the loop reads it: its name and the status of
      each of its scopes, in order. */
  datatype App = App(name: Json, statuses: seq<Json>)

  /** `scope["status"]`. */
  function StatusOf(scope: Json): Result<Json>
  {
    Subscript(scope, "status")
  }

  /** `app["name"]`, then `app["scopes"]` and every scope's status, in the
      order the loop touches them; the first of these to fail decides the
      error. */
  function DecodeApp(app: Json): (r: Result<App>)
    ensures app.JObj? && "name" !in app.fields ==> r == Err(KeyError("name"))
    ensures app.JObj? && "name" in app.fields && "scopes" !in app.fields ==> r == Err(KeyError("scopes"))
    ensures app.JObj? && "name" in app.fields && "scopes" in app.fields && Elements(app.fields["scopes"]).Err? ==>
      r == Err(Elements(app.fields["scopes"]).error)
    ensures r.Ok? ==> app.JObj? && "name" in app.fields && r.value.name == app.fields["name"]
    ensures r.Ok? ==> "scopes" in app.fields && Elements(app.fields["scopes"]).Ok?
    ensures r.Ok? ==> |r.value.statuses| == |Elements(app.fields["scopes"]).value|
    ensures r.Ok? ==> forall j :: 0 <= j < |r.value.statuses| ==>
      Subscript(Elements(app.fields["scopes"]).value[j], "status") == Ok(r.value.statuses[j])
  {
    var name :- Subscript(app, "name");
    var scopes :- Subscript(app, "scopes");
    var items :- Elements(scopes);
    var statuses :- MapResult(items, StatusOf);
    MapResultOk(items, StatusOf);
    Ok(App(name, statuses))
  }

  /** The records of one application, one per scope, in scope order. */
  function AppRecords(a: App): seq<Integration>
  {
    seq(|a.statuses|, k requires 0 <= k < |a.statuses| => Integration(a.name, a.statuses[k]))
  }

  /** The records of all applications, in application order. */
  function Flatten(apps: seq<App>): seq<Integration>
    decreases |apps|
  {
    if apps == [] then [] else Flatten(apps[..|apps| - 1]) + AppRecords(apps[|apps| - 1])
  }

  /** The total number of scopes. */
  function TotalScopes(apps: seq<App>): nat
    decreases |apps|
  {
    if apps == [] then 0 else TotalScopes(apps[..|apps| - 1]) + |apps[|apps| - 1].statuses|
  }

  /** What `get_integrations()` returns for a response body. */
  function Integrations(body: Json): (r: Result<seq<Integration>>)
    ensures body.JObj? && "data" !in body.fields ==> r == Err(KeyError("data"))
    ensures r.Ok? ==> body.JObj? && "data" in body.fields
  {
    var data :- Subscript(body, "data");
    var items :- Elements(data);
    var apps :- MapResult(items, DecodeApp);
    Ok(Flatten(apps))
  }

  /** One record per scope. */
  lemma {:induction false} FlattenLength(apps: seq<App>)
    ensures |Flatten(apps)| == TotalScopes(apps)
    decreases |apps|
  {
    if apps != [] {
      FlattenLength(apps[..|apps| - 1]);
    }
  }

  lemma {:induction false} FlattenAppend(a: seq<App>, b: seq<App>)
    ensures Flatten(a + b) == Flatten(a) + Flatten(b)
    ensures TotalScopes(a + b) == TotalScopes(a) + TotalScopes(b)
    decreases |b|
  {
    if b == [] {
      assert a + b == a;
    } else {
      var init, last := b[..|b| - 1], b[|b| - 1];
      assert (a + b)[..|a + b| - 1] == a + init;
      assert (a + b)[|a + b| - 1] == last;
      FlattenAppend(a, init);
      assert Flatten(a + b) == Flatten(a) + Flatten(init) + AppRecords(last);
      AppendAssoc(Flatten(a), Flatten(init), AppRecords(last));
    }
  }

  /** Applications in input order, scopes in input order within each: the
      j-th scope of the i-th application is the record right after the
      scopes of the applications before it, and carries that application's
      name and that scope's status. */
  lemma {:induction false} FlattenAt(apps: seq<App>, i: nat, j: nat)
    requires i < |apps| && j < |apps[i].statuses|
    ensures TotalScopes(apps[..i]) + j < |Flatten(apps)|
    ensures Flatten(apps)[TotalScopes(apps[..i]) + j] == Integration(apps[i].name, apps[i].statuses[j])
    decreases |apps|
  {
    var init := apps[..|apps| - 1];
    var last := AppRecords(apps[|apps| - 1]);
    assert Flatten(apps) == Flatten(init) + last;
    if i == |apps| - 1 {
      FlattenLength(init);
      assert apps[..i] == init;
    } else {
      FlattenAt(init, i, j);
      assert init[..i] == apps[..i];
      assert init[i] == apps[i];
    }
  }

  /** An application with no scopes contributes no records. */
  lemma EmptyScopesContributeNothing(before: seq<App>, name: Json, after: seq<App>)
    ensures Flatten(before + [App(name, [])] + after) == Flatten(before + after)
  {
    FlattenAppend(before + [App(name, [])], after);
    FlattenAppend(before, [App(name, [])]);
    FlattenAppend(before, after);
    assert Flatten([App(name, [])]) == [];
  }

  /** An empty `data` list yields no records; a body without `data`, an
      application without `name` or `scopes`, or a scope without `status`
      raises `KeyError` for that key. */
  lemma IntegrationsEdgeCases(fields: map<string, Json>, app: map<string, Json>, scope: map<string, Json>)
    ensures Integrations(JObj(fields["data" := JArr([])])) == Ok([])
    ensures "data" !in fields ==> Integrations(JObj(fields)) == Err(KeyError("data"))
    ensures "name" !in app ==> Integrations(JObj(map["data" := JArr([JObj(app)])])) == Err(KeyError("name"))
    ensures "name" in app && "scopes" !in app ==>
      Integrations(JObj(map["data" := JArr([JObj(app)])])) == Err(KeyError("scopes"))
    ensures "status" !in scope ==>
      Integrations(JObj(map["data" := JArr([JObj(map["name" := JStr("X"), "scopes" := JArr([JObj(scope)])])])]))
      == Err(KeyError("status"))
  {
    assert [JObj(app)][..0] == [];
    var one := JObj(map["name" := JStr("X"), "scopes" := JArr([JObj(scope)])]);
    assert [one][..0] == [];
    assert [JObj(scope)][..0] == [];
    if "status" !in scope {
      assert MapResult([JObj(scope)], StatusOf) == Err(KeyError("status"));
      assert DecodeApp(one) == Err(KeyError("status"));
    }
  }

  /** The records of the first `n` scopes of an application. */
  lemma AppRecordsSnoc(name: Json, sts: seq<Json>, st: Json)
    ensures AppRecords(App(name, sts + [st])) == AppRecords(App(name, sts)) + [Integration(name, st)]
  {
  }

  /** The inner loop of `get_integrations()` for one application: each
      scope's status, in order, appended to `acc` as a record with the
      application's name; the first scope without `status` raises. */
  method AppendScopes(name: Json, scopes: seq<Json>, acc: seq<Integration>) returns (r: Result<seq<Integration>>)
    ensures MapResult(scopes, StatusOf).Err? ==> r == Err(MapResult(scopes, StatusOf).error)
    ensures MapResult(scopes, StatusOf).Ok? ==> r == Ok(acc + AppRecords(App(name, MapResult(scopes, StatusOf).value)))
  {
    var appIntegrations := acc;
    ghost var statuses: seq<Json> := [];
    var j := 0;
    assert scopes[..0] == [];
    while j < |scopes|
      invariant 0 <= j <= |scopes|
      invariant MapResult(scopes[..j], StatusOf) == Ok(statuses)
      invariant appIntegrations == acc + AppRecords(App(name, statuses))
    {
      MapResultSnoc(scopes, StatusOf, j);
      var status := Subscript(scopes[j], "status");
      if status.Err? {
        MapResultFailsAt(scopes, StatusOf, j);
        return Err(status.error);
      }
      AppRecordsSnoc(name, statuses, status.value);
      appIntegrations := appIntegrations + [Integration(name, status.value)];
      statuses := statuses + [status.value];
      j := j + 1;
    }
    assert scopes[..j] == scopes;
    return Ok(appIntegrations);
  }

  /** `get_integrations()` on one response body: the loop over applications,
      each handing its scopes to the inner loop. */
  method GetIntegrations(body: Json) returns (r: Result<seq<Integration>>)
    ensures r == Integrations(body)
  {
    var data := Subscript(body, "data");
    if data.Err? {
      return Err(data.error);
    }
    var apps := Elements(data.value);
    if apps.Err? {
      return Err(apps.error);
    }
    var items := apps.value;
    var appIntegrations: seq<Integration> := [];
    ghost var decoded: seq<App> := [];
    var i := 0;
    assert items[..0] == [];
    while i < |items|
      invariant 0 <= i <= |items|
      invariant MapResult(items[..i], DecodeApp) == Ok(decoded)
      invariant appIntegrations == Flatten(decoded)
    {
      var app := items[i];
      var name := Subscript(app, "name");
      if name.Err? {
        MapResultFailsAt(items, DecodeApp, i);
        return Err(name.error);
      }
      var scopes := Subscript(app, "scopes");
      if scopes.Err? {
        MapResultFailsAt(items, DecodeApp, i);
        return Err(scopes.error);
      }
      var scopeItems := Elements(scopes.value);
      if scopeItems.Err? {
        MapResultFailsAt(items, DecodeApp, i);
        return Err(scopeItems.error);
      }
      var next := AppendScopes(name.value, scopeItems.value, appIntegrations);
      if next.Err? {
        MapResultFailsAt(items, DecodeApp, i);
        return next;
      }
      MapResultSnoc(items, DecodeApp, i);
      ghost var a := App(name.value, MapResult(scopeItems.value, StatusOf).value);
      assert (decoded + [a])[..|decoded|] == decoded;
      appIntegrations := next.value;
      decoded := decoded + [a];
      i := i + 1;
    }
    assert items[..i] == items;
    return Ok(appIntegrations);
  }
}
