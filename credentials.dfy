/**
 * The keyring as the workflows see it, and the credential resolver shared
 * by `platform:up` (actions/up/up.go), the older `platform:ship` (ship.go)
 * and `platform:publish` (publish.go): look the URL up, and on a miss build
 * an item, prompt for what is missing, add it, and ask the caller to save.
 */
module Credentials {
  import opened Common

  /** A keyring entry: the credentials stored for one URL. */
  datatype Item = Item(url: string, username: string, password: string)

  /** Why the keyring could not be consulted at all: the empty-passphrase
      error, which callers pass through, or any other failure (a malformed
      file, a wrong passphrase). Each carries the error the library raised. */
  datatype Fault = EmptyPass(e: Error) | Broken(e: Error)

  /**
   * The keyring library's observable state: the items in memory, the items
   * last written to disk, and the outcomes it will give (an unlock fault,
   * a refusal to add, a failure to write).
   */
  datatype KeyState = KeyState(
    items: map<string, Item>,
    stored: map<string, Item>,
    fault: Option<Fault>,
    addFault: Option<Error>,
    saveFault: Option<Error>)

  /** What `GetForURL` reports. */
  datatype Lookup = Found(item: Item) | NotFound | Failed(fault: Fault)

  function LookupSpec(ks: KeyState, url: string): Lookup
  {
    if ks.fault.Some? then Failed(ks.fault.value)
    else if url in ks.items then Found(ks.items[url])
    else NotFound
  }

  /** `AddItem`: the item is filed under its URL unless the library refuses. */
  function AddSpec(ks: KeyState, item: Item): (r: (Option<Error>, KeyState))
  {
    if ks.addFault.Some? then (ks.addFault, ks)
    else (None, ks.(items := ks.items[item.url := item]))
  }

  /** `Save`: the in-memory items are written out unless writing fails. */
  function SaveSpec(ks: KeyState): (r: (Option<Error>, KeyState))
  {
    if ks.saveFault.Some? then (ks.saveFault, ks)
    else (None, ks.(stored := ks.items))
  }

  const MalformedText := "the keyring is malformed or wrong passphrase provided"

  /** The outcome of resolving credentials for a URL: the item, whether the
      caller must save the keyring, the error, and whether the user was
      prompted; `keys` is the keyring afterwards. */
  datatype Resolution = Resolution(item: Item, save: bool, err: Option<Error>,
                                   prompted: bool, keys: KeyState)

  /**
   * The decision table of `getCredentials` (actions/up/up.go:282-315,
   * ship.go:259-292) and `getPublishCredentials` (publish.go:122-155).
   * `tty` is what the interactive prompt yields: the username and password
   * typed in, or the prompt's error.
   */
  function ResolveSpec(ks: KeyState, url: string, username: string, password: string,
                       tty: Result<(string, string)>): Resolution
  {
    match LookupSpec(ks, url)
    case Found(it) => Resolution(it, false, None, false, ks)
    case Failed(EmptyPass(e)) => Resolution(Item("", "", ""), false, Some(e), false, ks)
    case Failed(Broken(_)) => Resolution(Item("", "", ""), false, Some(Fail(MalformedText)), false, ks)
    case NotFound =>
      var asked := username == "" || password == "";
      if asked && tty.Err? then
        Resolution(Item(url, username, password), false, Some(tty.error), true, ks)
      else
        var it := if asked then Item(url, tty.value.0, tty.value.1) else Item(url, username, password);
        var (e, ks') := AddSpec(ks, it);
        Resolution(it, e.None?, e, asked, ks')
  }

  /** The decision table of the resolver, stated on its outcome. */
  lemma ResolveTable(ks: KeyState, url: string, username: string, password: string,
                     tty: Result<(string, string)>)
    ensures var r := ResolveSpec(ks, url, username, password, tty);
      // Nothing is ever written to disk by the resolver itself.
      && (r.keys.stored == ks.stored)
      // The caller is asked to save exactly when a new item was added.
      && (r.save <==> r.err.None? && LookupSpec(ks, url).NotFound?)
      && (r.save ==> r.keys.items == ks.items[url := r.item] && r.item.url == url)
      && (!r.save ==> r.keys == ks)
      // A hit is returned as stored, without a prompt.
      && (LookupSpec(ks, url).Found? ==>
            r.item == ks.items[url] && r.err.None? && !r.prompted)
      // The empty-passphrase error is passed through; any other fault is
      // replaced by a fixed message.
      && (ks.fault.Some? && ks.fault.value.EmptyPass? ==> r.err == Some(ks.fault.value.e))
      && (ks.fault.Some? && ks.fault.value.Broken? ==> r.err == Some(Fail(MalformedText)))
      // The prompt happens only on a miss, and only if something is missing.
      && (r.prompted <==> LookupSpec(ks, url).NotFound? && (username == "" || password == ""))
      && (LookupSpec(ks, url).NotFound? && !r.prompted && r.err.None? ==>
            r.item == Item(url, username, password))
  {
  }

  /** The keyring object the workflows hold and mutate. */
  class Keyring {
    var state: KeyState

    constructor (initial: KeyState)
      ensures state == initial
    {
      state := initial;
    }

    method GetForURL(url: string) returns (r: Lookup)
      ensures r == LookupSpec(state, url)
    {
      r := LookupSpec(state, url);
    }

    method AddItem(item: Item) returns (err: Option<Error>)
      modifies this
      ensures (err, state) == AddSpec(old(state), item)
    {
      var (e, s) := AddSpec(state, item);
      err, state := e, s;
    }

    method Save() returns (err: Option<Error>)
      modifies this
      ensures (err, state) == SaveSpec(old(state))
    {
      var (e, s) := SaveSpec(state);
      err, state := e, s;
    }
  }

  /**
   * The resolver as the workflows run it against their keyring: lookup,
   * then on a miss the prompt (only if a field is empty), then `AddItem`.
   */
  method Resolve(k: Keyring, url: string, username: string, password: string,
                 tty: Result<(string, string)>)
    returns (item: Item, save: bool, err: Option<Error>, prompted: bool)
    modifies k
    ensures var r := ResolveSpec(old(k.state), url, username, password, tty);
      item == r.item && save == r.save && err == r.err && prompted == r.prompted
      && k.state == r.keys
  {
    var found := k.GetForURL(url);
    save, prompted := false, false;
    match found {
      case Found(it) =>
        item, err := it, None;
      case Failed(EmptyPass(e)) =>
        item, err := Item("", "", ""), Some(e);
      case Failed(Broken(_)) =>
        item, err := Item("", "", ""), Some(Fail(MalformedText));
      case NotFound =>
        item := Item(url, username, password);
        if item.username == "" || item.password == "" {
          prompted := true;
          if tty.Err? {
            err := Some(tty.error);
            return;
          }
          item := item.(username := tty.value.0, password := tty.value.1);
        }
        err := k.AddItem(item);
        save := err.None?;
    }
  }
}
