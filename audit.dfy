/**
 * How AuditMiddleware (internal/api/middleware/middleware.go) classifies a
 * request for the audit log: the kind of entity from the path, the action
 * from the HTTP method, and who acted. Writing the log entry is not
 * modelled.
 */
module Audit {
  import opened Wrappers
  import opened Uuid

  /** `sub` occurs in `s` starting at position i. */
  predicate OccursAt(s: string, sub: string, i: int) {
    0 <= i && i + |sub| <= |s| && s[i..i + |sub|] == sub
  }

  lemma ShiftOccurs(s: string, sub: string, i: int)
    requires |s| > 0 && i >= 1
    ensures OccursAt(s, sub, i) <==> OccursAt(s[1..], sub, i - 1)
  {
    if i + |sub| <= |s| {
      assert s[i..i + |sub|] == s[1..][i - 1..i - 1 + |sub|];
    }
  }

  /** `strings.Contains(s, sub)`. */
  function Contains(s: string, sub: string): (r: bool)
    ensures r <==> exists i :: OccursAt(s, sub, i)
    decreases |s|
  {
    if sub <= s then
      assert OccursAt(s, sub, 0);
      true
    else if |s| == 0 then
      false
    else
      var tail := s[1..];
      var rest := Contains(tail, sub);
      if rest then
        var i :| OccursAt(tail, sub, i);
        ShiftOccurs(s, sub, i + 1);
        true
      else
        assert forall i :: OccursAt(s, sub, i) ==> i >= 1 && OccursAt(tail, sub, i - 1) by {
          forall i | OccursAt(s, sub, i)
            ensures i >= 1 && OccursAt(tail, sub, i - 1)
          {
            if i == 0 {
              assert false;
            } else {
              ShiftOccurs(s, sub, i);
            }
          }
        }
        false
  }

  /** The entity kinds, in the order the path is checked against them. */
  const EntityRules: seq<(seq<string>, string)> := [
    (["/products"], "Product"),
    (["/users", "/dashboard"], "User"),
    (["/orders"], "Order"),
    (["/auth"], "Auth"),
    (["/audit"], "Audit")
  ]

  predicate MatchesRule(path: string, k: int)
    requires 0 <= k < |EntityRules|
  {
    exists j :: 0 <= j < |EntityRules[k].0| && Contains(path, EntityRules[k].0[j])
  }

  /** The entity type: the first rule whose fragment the path contains, "Unknown" when none does. */
  function EntityType(path: string): (r: string)
    ensures r == "Unknown" <==> forall k :: 0 <= k < |EntityRules| ==> !MatchesRule(path, k)
    ensures r != "Unknown" ==> exists k :: 0 <= k < |EntityRules| && MatchesRule(path, k) && r == EntityRules[k].1
                                           && forall m :: 0 <= m < k ==> !MatchesRule(path, m)
  {
    assert EntityRules[0].0 == ["/products"] && EntityRules[1].0 == ["/users", "/dashboard"];
    assert EntityRules[2].0 == ["/orders"] && EntityRules[3].0 == ["/auth"] && EntityRules[4].0 == ["/audit"];
    if Contains(path, "/products") then assert Contains(path, EntityRules[0].0[0]) && MatchesRule(path, 0); "Product"
    else
      assert !MatchesRule(path, 0);
      if Contains(path, "/users") || Contains(path, "/dashboard") then
        assert MatchesRule(path, 1) by {
          if Contains(path, "/users") { assert Contains(path, EntityRules[1].0[0]); }
          else { assert Contains(path, EntityRules[1].0[1]); }
        }
        "User"
      else
        assert !MatchesRule(path, 1);
        if Contains(path, "/orders") then assert Contains(path, EntityRules[2].0[0]) && MatchesRule(path, 2); "Order"
        else
          assert !MatchesRule(path, 2);
          if Contains(path, "/auth") then assert Contains(path, EntityRules[3].0[0]) && MatchesRule(path, 3); "Auth"
          else
            assert !MatchesRule(path, 3);
            if Contains(path, "/audit") then assert Contains(path, EntityRules[4].0[0]) && MatchesRule(path, 4); "Audit"
            else
              assert !MatchesRule(path, 4);
              "Unknown"
  }

  /** The action named by the HTTP method; a method outside the table names itself. */
  function ActionDescription(method_: string): (r: string)
    ensures method_ !in {"GET", "POST", "PUT", "PATCH", "DELETE"} ==> r == method_
    ensures method_ == "GET" ==> r == "Просмотр"
    ensures method_ == "POST" ==> r == "Создание"
    ensures method_ in {"PUT", "PATCH"} ==> r == "Обновление"
    ensures method_ == "DELETE" ==> r == "Удаление"
  {
    match method_
    case "GET" => "Просмотр"
    case "POST" => "Создание"
    case "PUT" => "Обновление"
    case "PATCH" => "Обновление"
    case "DELETE" => "Удаление"
    case _ => method_
  }

  /** Who acted: the id AuthMiddleware left in the context, or a guest with the nil id. */
  function Actor(contextId: Option<Id>): (r: (Id, string))
    ensures contextId.None? ==> r == (Nil, "Гость")
    ensures contextId.Some? ==> r == (contextId.value, "Авторизованный пользователь")
  {
    match contextId
    case None => (Nil, "Гость")
    case Some(id) => (id, "Авторизованный пользователь")
  }

  /** The text of the audit entry: the action and the entity, then whether a guest or a signed-in user acted. */
  function LogData(method_: string, path: string, contextId: Option<Id>): (r: string)
    ensures "Действие: " + ActionDescription(method_) + " " + EntityType(path) <= r
  {
    "Действие: " + ActionDescription(method_) + " " + EntityType(path) + " | Пользователь: " + Actor(contextId).1
  }

  /** The entry tells a guest from a signed-in user, whatever the request. */
  lemma LogDataTellsGuest(method_: string, path: string, id: Id)
    ensures LogData(method_, path, None) != LogData(method_, path, Some(id))
  {
    assert |LogData(method_, path, None)| < |LogData(method_, path, Some(id))|;
  }

  /** A dashboard path is logged as a User action unless it also mentions products, which are checked first. */
  lemma DashboardIsUser(suffix: string)
    ensures !Contains("/api/v1/dashboard" + suffix, "/products") ==> EntityType("/api/v1/dashboard" + suffix) == "User"
    ensures EntityType("/api/v1/dashboard/products") == "Product"
  {
    var p := "/api/v1/dashboard" + suffix;
    assert OccursAt(p, "/dashboard", 7);
    assert OccursAt("/api/v1/dashboard/products", "/products", 17);
  }

  /** The auth routes are logged as Auth. */
  lemma AuthRouteEntity(suffix: string)
    requires !Contains("/api/v1/auth" + suffix, "/products") && !Contains("/api/v1/auth" + suffix, "/users")
    requires !Contains("/api/v1/auth" + suffix, "/dashboard") && !Contains("/api/v1/auth" + suffix, "/orders")
    ensures EntityType("/api/v1/auth" + suffix) == "Auth"
  {
    assert OccursAt("/api/v1/auth" + suffix, "/auth", 7);
  }
}
