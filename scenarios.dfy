/** Request sequences against a store whose file does not exist yet. */
module StoreScenarios {
  import opened Wrappers
  import opened Items
  import opened JsText
  import opened Server
  import opened ServerProperties

  /** Creating "apple" answers 201 with the item, and the next GET lists just that item. */
  method CreateThenList() returns (created: Response, listed: Response)
    ensures created == Response(201, WithItem(ItemCreated, Item(1, "apple")))
    ensures listed == Response(200, Listing([Item(1, "apple")]))
  {
    var store := new Store();
    created := store.Handle("/items", "POST", Some("apple"), 1);
    assert [] + [Item(1, "apple")] == [Item(1, "apple")];
    listed := store.Handle("/items", "GET", None, 2);
  }

  /**
   * A nameless POST, a PUT of an id never created and a DELETE of a
   * non-numeric id are all refused, and the file is still absent afterwards:
   * GET lists the empty collection.
   */
  method RefusalsLeaveStoreEmpty() returns (posted: Response, put: Response, deleted: Response, listed: Response, stillAbsent: bool)
    ensures posted == Response(400, Message(NameRequired))
    ensures put == Response(404, Message(ItemNotFound))
    ensures deleted == Response(400, Message(InvalidId))
    ensures listed == Response(200, Listing([]))
    ensures stillAbsent
  {
    var store := new Store();
    assert store.Contents() == [];
    PostWithoutName(None, 1, []);
    posted := store.Handle("/items", "POST", None, 1);
    assert store.file == None;
    var missing := "/items/" + ShowInt(999999);
    ItemPathIdOfNumber(999999);
    PutUnknownId(missing, Some("x"), 2, [], 999999);
    put := store.Handle(missing, "PUT", Some("x"), 2);
    assert store.file == None;
    NonNumericIdRefused("abc", "DELETE", None, 3, []);
    deleted := store.Handle("/items/" + "abc", "DELETE", None, 3);
    assert store.file == None;
    GetListsCollection(None, 4, []);
    listed := store.Handle("/items", "GET", None, 4);
    stillAbsent := store.file.None?;
  }
}
