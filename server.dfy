/**
 * The request handler of the items service: routing on pathname and method,
 * and the read-modify-write cycle over items.json. `Dispatch` is the decision
 * table as a function of the request and the loaded list; `Store.Handle`
 * performs it step by step against the file.
 */
module Server {
  import opened Wrappers
  import opened Items
  import opened JsText

  const NameRequired := "Name is required"
  const ItemCreated := "Item created"
  const InvalidId := "Invalid ID"
  const ItemNotFound := "Item not found"
  const ItemUpdated := "Item updated"
  const ItemDeleted := "Item deleted"
  const MethodNotAllowed := "Method not allowed"
  const RouteNotFound := "Route not found"

  /** The JSON object sent back: `{message}`, `{items}` or `{message, item}`. */
  datatype Body =
    | Message(message: string)
    | Listing(items: seq<Item>)
    | WithItem(message: string, item: Item)

  datatype Response = Response(status: nat, body: Body)

  /**
   * What one request does: the response, and the list handed to
   * `writeItems`, or None when the file is not written.
   */
  datatype Outcome = Outcome(response: Response, write: Option<seq<Item>>) {
    /** The collection after the request, given the one before it. */
    function After(items: seq<Item>): seq<Item> {
      write.GetOr(items)
    }
  }

  function Reply(status: nat, message: string): Outcome {
    Outcome(Response(status, Message(message)), None)
  }

  /** The id argument of `/items/<...>`: parseInt of the last `/`-separated piece. */
  function PathId(pathname: string): Option<int> {
    ParseInt(LastPiece(pathname, '/'))
  }

  /**
   * The whole handler as a function of the pathname, the request method, the body's
   * `name` field, the id a creation would use, and the loaded collection.
   */
  function Dispatch(pathname: string, httpMethod: string, name: Option<string>, freshId: int, items: seq<Item>): (out: Outcome)
    ensures out.response.status >= 400 ==> out.write.None?
  {
    if pathname == "/items" then
      if httpMethod == "GET" then
        Outcome(Response(200, Listing(items)), None)
      else if httpMethod == "POST" then
        if !Truthy(name) then Reply(400, NameRequired)
        else
          var newItem := Item(freshId, name.value);
          Outcome(Response(201, WithItem(ItemCreated, newItem)), Some(items + [newItem]))
      else Reply(405, MethodNotAllowed)
    else if "/items/" <= pathname then
      match PathId(pathname)
      case None => Reply(400, InvalidId)
      case Some(itemId) =>
        if httpMethod == "PUT" then
          match FindIndex(items, itemId)
          case None => Reply(404, ItemNotFound)
          case Some(i) =>
            var item := Rename(items[i], name);
            Outcome(Response(200, WithItem(ItemUpdated, item)), Some(items[i := item]))
        else if httpMethod == "DELETE" then
          var kept := RemoveId(items, itemId);
          if |kept| == |items| then Reply(404, ItemNotFound)
          else Outcome(Response(200, Message(ItemDeleted)), Some(kept))
        else Reply(405, MethodNotAllowed)
    else Reply(404, RouteNotFound)
  }

  /** items.json: absent (None) until the first write, then the last list written. */
  class Store {
    var file: Option<seq<Item>>

    /** A store whose file does not exist yet. */
    constructor ()
      ensures file == None
    {
      file := None;
    }

    /** The collection the file holds; an absent file holds the empty collection. */
    function Contents(): seq<Item>
      reads this
    {
      file.GetOr([])
    }

    /** `readItems`: the stored list, or `[]` when the file does not exist. */
    method ReadItems() returns (items: seq<Item>)
      ensures file.None? ==> items == []
      ensures file.Some? ==> items == file.value
    {
      match file
      case None => items := [];
      case Some(stored) => items := stored;
    }

    /** `writeItems`: replace the whole file with `items`. */
    method WriteItems(items: seq<Item>)
      modifies this
      ensures file == Some(items)
    {
      file := Some(items);
    }

    /**
     * One request: the response is the one Dispatch gives for the collection
     * in the file, and the file is rewritten exactly when Dispatch says so.
     */
    method Handle(pathname: string, httpMethod: string, name: Option<string>, freshId: int) returns (response: Response)
      modifies this
      ensures response == Dispatch(pathname, httpMethod, name, freshId, old(Contents())).response
      ensures file == match Dispatch(pathname, httpMethod, name, freshId, old(Contents())).write
                      case None => old(file)
                      case Some(written) => Some(written)
      ensures Contents() == Dispatch(pathname, httpMethod, name, freshId, old(Contents())).After(old(Contents()))
    {
      if pathname == "/items" {
        if httpMethod == "GET" {
          var items := ReadItems();
          response := Response(200, Listing(items));
        } else if httpMethod == "POST" {
          if !Truthy(name) {
            return Response(400, Message(NameRequired));
          }
          var items := ReadItems();
          var newItem := Item(freshId, name.value);
          items := items + [newItem];
          WriteItems(items);
          response := Response(201, WithItem(ItemCreated, newItem));
        } else {
          response := Response(405, Message(MethodNotAllowed));
        }
      } else if "/items/" <= pathname {
        var urlParts := Split(pathname, '/');
        var itemId := ParseInt(urlParts[|urlParts| - 1]);
        if itemId.None? {
          return Response(400, Message(InvalidId));
        }
        if httpMethod == "PUT" {
          var items := ReadItems();
          var found := FindIndex(items, itemId.value);
          if found.None? {
            return Response(404, Message(ItemNotFound));
          }
          var i := found.value;
          items := items[i := Rename(items[i], name)];
          WriteItems(items);
          response := Response(200, WithItem(ItemUpdated, items[i]));
        } else if httpMethod == "DELETE" {
          var items := ReadItems();
          var initialLength := |items|;
          items := RemoveId(items, itemId.value);
          if |items| == initialLength {
            return Response(404, Message(ItemNotFound));
          }
          WriteItems(items);
          response := Response(200, Message(ItemDeleted));
        } else {
          response := Response(405, Message(MethodNotAllowed));
        }
      } else {
        response := Response(404, Message(RouteNotFound));
      }
    }
  }
}
