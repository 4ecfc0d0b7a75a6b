/** What the request handler promises, stated over Dispatch for every input. */
module ServerProperties {
  import opened Wrappers
  import opened Items
  import opened JsText
  import opened Server

  // ---------------------------------------------------------------------------
  // Routing
  // ---------------------------------------------------------------------------

  /** For `/items/<segment>` with a slash-free segment, the id is parseInt of that segment. */
  lemma ItemPathId(segment: string)
    requires '/' !in segment
    ensures PathId("/items/" + segment) == ParseInt(segment)
  {
    SplitAppend("/items", '/', segment);
    assert "/items/" + segment == "/items" + ['/'] + segment;
  }

  /** `/items/<n>` names the id n, whatever integer n is. */
  lemma ItemPathIdOfNumber(n: int)
    ensures PathId("/items/" + ShowInt(n)) == Some(n)
  {
    var s := ShowInt(n);
    ShowIntHasNoSlash(n);
    ParseIntShowInt(n, "");
    assert s + "" == s;
    ItemPathId(s);
  }

  lemma ShowIntHasNoSlash(n: int)
    ensures '/' !in ShowInt(n)
  {
    var m: nat := if n < 0 then -n else n;
    var d := ShowNat(m);
    ShowNatDenotes(m);
    assert forall i :: 0 <= i < |d| ==> d[i] != '/';
    assert '/' !in d;
    if n < 0 {
      assert ShowInt(n) == ['-'] + d;
    }
  }

  /** A pathname that is neither `/items` nor under `/items/` is answered 404 without a write. */
  lemma UnknownRoute(pathname: string, httpMethod: string, name: Option<string>, freshId: int, items: seq<Item>)
    requires pathname != "/items" && !("/items/" <= pathname)
    ensures Dispatch(pathname, httpMethod, name, freshId, items) == Outcome(Response(404, Message(RouteNotFound)), None)
  {
  }

  /** On `/items` only GET and POST are served; any other method gets 405 and no write. */
  lemma CollectionMethodNotAllowed(httpMethod: string, name: Option<string>, freshId: int, items: seq<Item>)
    requires httpMethod != "GET" && httpMethod != "POST"
    ensures Dispatch("/items", httpMethod, name, freshId, items) == Outcome(Response(405, Message(MethodNotAllowed)), None)
  {
  }

  /** On a valid `/items/<id>` only PUT and DELETE are served; any other method gets 405 and no write. */
  lemma ItemMethodNotAllowed(pathname: string, httpMethod: string, name: Option<string>, freshId: int, items: seq<Item>)
    requires "/items/" <= pathname && PathId(pathname).Some?
    requires httpMethod != "PUT" && httpMethod != "DELETE"
    ensures Dispatch(pathname, httpMethod, name, freshId, items) == Outcome(Response(405, Message(MethodNotAllowed)), None)
  {
  }

  /** An id segment that is not a number is refused with 400 before the method is looked at. */
  lemma InvalidIdBeforeMethod(pathname: string, httpMethod: string, name: Option<string>, freshId: int, items: seq<Item>)
    requires "/items/" <= pathname && PathId(pathname).None?
    ensures Dispatch(pathname, httpMethod, name, freshId, items) == Outcome(Response(400, Message(InvalidId)), None)
  {
    assert pathname != "/items" by {
      assert |pathname| >= 7;
    }
  }

  /**
   * `/items/<segment>` with a segment that holds no decimal digit, such as
   * `DELETE /items/abc`, is a 400 "Invalid ID" whatever the method.
   */
  lemma NonNumericIdRefused(segment: string, httpMethod: string, name: Option<string>, freshId: int, items: seq<Item>)
    requires '/' !in segment
    requires forall i :: 0 <= i < |segment| ==> !IsDigit(segment[i], 10)
    ensures Dispatch("/items/" + segment, httpMethod, name, freshId, items) == Outcome(Response(400, Message(InvalidId)), None)
  {
    ParseIntNoDigits(segment);
    ItemPathId(segment);
    InvalidIdBeforeMethod("/items/" + segment, httpMethod, name, freshId, items);
  }

  // ---------------------------------------------------------------------------
  // GET and POST on /items
  // ---------------------------------------------------------------------------

  /** GET lists exactly the stored collection and writes nothing. */
  lemma GetListsCollection(name: Option<string>, freshId: int, items: seq<Item>)
    ensures Dispatch("/items", "GET", name, freshId, items) == Outcome(Response(200, Listing(items)), None)
  {
  }

  /** POST without a truthy name is refused with 400 and writes nothing. */
  lemma PostWithoutName(name: Option<string>, freshId: int, items: seq<Item>)
    requires !Truthy(name)
    ensures Dispatch("/items", "POST", name, freshId, items) == Outcome(Response(400, Message(NameRequired)), None)
  {
  }

  /**
   * POST with a truthy name writes the old collection followed by exactly
   * one new item, and answers 201 with that item.
   */
  lemma PostAppends(name: Option<string>, freshId: int, items: seq<Item>)
    requires Truthy(name)
    ensures var out := Dispatch("/items", "POST", name, freshId, items);
      var after := out.After(items);
      && out.response == Response(201, WithItem(ItemCreated, Item(freshId, name.value)))
      && out.write == Some(after)
      && |after| == |items| + 1
      && after[..|items|] == items
      && after[|items|] == Item(freshId, name.value)
  {
    var after := items + [Item(freshId, name.value)];
    assert after[..|items|] == items;
  }

  /**
   * The created item's id is unique in the new collection when the supplied
   * id was not in use; nothing in the handler checks that it was not.
   */
  lemma PostFreshIdUnique(name: Option<string>, freshId: int, items: seq<Item>)
    requires Truthy(name)
    requires forall j :: 0 <= j < |items| ==> items[j].id != freshId
    ensures CountId(Dispatch("/items", "POST", name, freshId, items).After(items), freshId) == 1
  {
    var after := items + [Item(freshId, name.value)];
    assert after[..|after| - 1] == items;
  }

  /** A POST followed by a GET lists the old collection with the new item at the end. */
  lemma PostThenGet(name: Option<string>, freshId: int, items: seq<Item>, name': Option<string>, freshId': int)
    requires Truthy(name)
    ensures var afterPost := Dispatch("/items", "POST", name, freshId, items).After(items);
      Dispatch("/items", "GET", name', freshId', afterPost).response
        == Response(200, Listing(items + [Item(freshId, name.value)]))
  {
  }

  // ---------------------------------------------------------------------------
  // PUT and DELETE on /items/<id>
  // ---------------------------------------------------------------------------

  /** PUT on an id no item carries is a 404 and writes nothing. */
  lemma PutUnknownId(pathname: string, name: Option<string>, freshId: int, items: seq<Item>, id: int)
    requires "/items/" <= pathname && PathId(pathname) == Some(id)
    requires forall j :: 0 <= j < |items| ==> items[j].id != id
    ensures Dispatch(pathname, "PUT", name, freshId, items) == Outcome(Response(404, Message(ItemNotFound)), None)
  {
    assert pathname != "/items" by {
      assert |pathname| >= 7;
    }
  }

  /**
   * PUT on an id that is present rewrites only the first item with that id:
   * its name becomes the new name if that is truthy and stays otherwise; the
   * length, every id and every other item are unchanged, and the reply is
   * 200 with the updated item.
   */
  lemma PutKnownId(pathname: string, name: Option<string>, freshId: int, items: seq<Item>, id: int, i: nat)
    requires "/items/" <= pathname && PathId(pathname) == Some(id)
    requires i < |items| && items[i].id == id
    requires forall j :: 0 <= j < i ==> items[j].id != id
    ensures var out := Dispatch(pathname, "PUT", name, freshId, items);
      var after := out.After(items);
      && out.write == Some(after)
      && |after| == |items|
      && (forall j :: 0 <= j < |items| ==> after[j].id == items[j].id)
      && (forall j :: 0 <= j < |items| && j != i ==> after[j] == items[j])
      && after[i].name == (if Truthy(name) then name.value else items[i].name)
      && out.response == Response(200, WithItem(ItemUpdated, after[i]))
  {
    assert pathname != "/items" by {
      assert |pathname| >= 7;
    }
    var found := FindIndex(items, id);
    assert found == Some(i);
  }

  /**
   * DELETE removes every item with the id and keeps the rest in order; it
   * answers 404 and writes nothing exactly when no item had the id.
   */
  lemma DeleteRemovesAll(pathname: string, name: Option<string>, freshId: int, items: seq<Item>, id: int)
    requires "/items/" <= pathname && PathId(pathname) == Some(id)
    ensures var out := Dispatch(pathname, "DELETE", name, freshId, items);
      var noMatch := forall j :: 0 <= j < |items| ==> items[j].id != id;
      && out.After(items) == RemoveId(items, id)
      && (out.write.None? <==> noMatch)
      && out.response == (if noMatch then Response(404, Message(ItemNotFound)) else Response(200, Message(ItemDeleted)))
  {
    DeleteRoute(pathname, name, freshId, items, id);
    if forall j :: 0 <= j < |items| ==> items[j].id != id {
      RemoveIdNoMatch(items, id);
    }
  }

  /** DELETE on a valid `/items/<id>` decides on the length of the filtered list. */
  lemma DeleteRoute(pathname: string, name: Option<string>, freshId: int, items: seq<Item>, id: int)
    requires "/items/" <= pathname && PathId(pathname) == Some(id)
    ensures var kept := RemoveId(items, id);
      Dispatch(pathname, "DELETE", name, freshId, items)
        == if |kept| == |items| then Outcome(Response(404, Message(ItemNotFound)), None)
           else Outcome(Response(200, Message(ItemDeleted)), Some(kept))
  {
    assert pathname != "/items" by {
      assert |pathname| >= 7;
    }
  }

  /** A second DELETE of the same id is always a 404 that writes nothing. */
  lemma DeleteTwice(pathname: string, name: Option<string>, freshId: int, items: seq<Item>, name': Option<string>, freshId': int)
    requires "/items/" <= pathname && PathId(pathname).Some?
    ensures var afterFirst := Dispatch(pathname, "DELETE", name, freshId, items).After(items);
      Dispatch(pathname, "DELETE", name', freshId', afterFirst) == Outcome(Response(404, Message(ItemNotFound)), None)
  {
    var id := PathId(pathname).value;
    DeleteRemovesAll(pathname, name, freshId, items, id);
    var afterFirst := RemoveId(items, id);
    assert forall j :: 0 <= j < |afterFirst| ==> afterFirst[j] in afterFirst;
    DeleteRemovesAll(pathname, name', freshId', afterFirst, id);
  }

  // ---------------------------------------------------------------------------
  // Writes
  // ---------------------------------------------------------------------------

  /**
   * The file is written exactly on a successful POST, PUT or DELETE; every
   * refused request (status 400, 404 or 405) and every GET leaves it alone.
   */
  lemma WritesOnlyOnMutatingSuccess(pathname: string, httpMethod: string, name: Option<string>, freshId: int, items: seq<Item>)
    ensures var out := Dispatch(pathname, httpMethod, name, freshId, items);
      && out.response.status in {200, 201, 400, 404, 405}
      && (out.response.status >= 400 ==> out.write.None?)
      && (out.write.Some? <==>
           out.response.status == 201 || (out.response.status == 200 && httpMethod != "GET"))
  {
    if pathname == "/items" {
      if httpMethod == "GET" {
        GetListsCollection(name, freshId, items);
      } else if httpMethod == "POST" {
        if Truthy(name) {
          PostAppends(name, freshId, items);
        } else {
          PostWithoutName(name, freshId, items);
        }
      } else {
        CollectionMethodNotAllowed(httpMethod, name, freshId, items);
      }
    } else if "/items/" <= pathname {
      match PathId(pathname)
      case None =>
        InvalidIdBeforeMethod(pathname, httpMethod, name, freshId, items);
      case Some(id) =>
        if httpMethod == "PUT" {
          match FindIndex(items, id)
          case None =>
            PutUnknownId(pathname, name, freshId, items, id);
          case Some(i) =>
            PutKnownId(pathname, name, freshId, items, id, i);
        } else if httpMethod == "DELETE" {
          DeleteRemovesAll(pathname, name, freshId, items, id);
        } else {
          ItemMethodNotAllowed(pathname, httpMethod, name, freshId, items);
        }
    } else {
      UnknownRoute(pathname, httpMethod, name, freshId, items);
    }
  }
}
