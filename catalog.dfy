/**
 * The component catalog of the content script: the `components` array that
 * `setComponents` extends from a fetched `components.json`, and the
 * `componentUrls` gate that lets each components URL through once.
 */
module Catalog {
  import opened Wrappers
  import opened Descriptors

  /** What `fetch(url)` and `res.json()` yield: a non-ok status, a thrown error, or the parsed entries. */
  datatype FetchResult = NotOk(status: int) | Threw | Fetched(entries: seq<Component>)

  /** `components.map((c) => c._id)`. */
  function Ids(held: seq<Component>): (ids: seq<string>)
    ensures |ids| == |held|
    ensures forall k :: 0 <= k < |held| ==> ids[k] == held[k].id
  {
    seq(|held|, k requires 0 <= k < |held| => held[k].id)
  }

  /** `components.map((c) => c._id).includes(id)`. */
  predicate Holds(held: seq<Component>, id: string) {
    id in Ids(held)
  }

  /** The filters of `setComponents`: `_items` is truthy and the `_id` is not held before the call. */
  predicate Admitted(held: seq<Component>, c: Component) {
    c.items.Some? && !Holds(held, c.id)
  }

  /** An entry after its `body` is replaced by the text content of its markup. */
  function Normalised(c: Component, plain: string -> string): Component {
    c.(body := plain(c.body))
  }

  /** `newComponents`: the admitted entries of a response, in response order, normalised. */
  function NewEntries(held: seq<Component>, json: seq<Component>, plain: string -> string): seq<Component>
    decreases |json|
  {
    if json == [] then []
    else
      var rest := NewEntries(held, json[..|json| - 1], plain);
      var c := json[|json| - 1];
      if Admitted(held, c) then rest + [Normalised(c, plain)] else rest
  }

  /** The catalog's ids are pairwise distinct. */
  predicate UniqueIds(cs: seq<Component>) {
    forall i, j :: 0 <= i < j < |cs| ==> cs[i].id != cs[j].id
  }

  /** The merge adds exactly the admitted entries of the response (each one normalised) and nothing else. */
  lemma {:induction false} NewEntriesMembers(held: seq<Component>, json: seq<Component>, plain: string -> string)
    ensures |NewEntries(held, json, plain)| <= |json|
    ensures forall x :: x in NewEntries(held, json, plain) <==>
                          exists c :: c in json && Admitted(held, c) && x == Normalised(c, plain)
  {
    if json != [] {
      var init := json[..|json| - 1];
      NewEntriesMembers(held, init, plain);
      assert json == init + [json[|json| - 1]];
    }
  }

  /** Every added entry carries the id of an entry of the response, and no id already held. */
  lemma NewEntriesIds(held: seq<Component>, json: seq<Component>, plain: string -> string, x: Component)
    requires x in NewEntries(held, json, plain)
    ensures x.id in Ids(json) && !Holds(held, x.id)
  {
    NewEntriesMembers(held, json, plain);
    var c :| c in json && Admitted(held, c) && x == Normalised(c, plain);
    var k :| 0 <= k < |json| && json[k] == c;
    assert Ids(json)[k] == x.id;
  }

  /** A response in which nothing is admitted adds nothing. */
  lemma {:induction false} NothingAdmitted(held: seq<Component>, json: seq<Component>, plain: string -> string)
    requires forall c :: c in json ==> !Admitted(held, c)
    ensures NewEntries(held, json, plain) == []
  {
    if json != [] {
      NothingAdmitted(held, json[..|json| - 1], plain);
    }
  }

  /** Merging the same response a second time adds nothing. */
  lemma MergeIdempotent(held: seq<Component>, json: seq<Component>, plain: string -> string)
    ensures NewEntries(held + NewEntries(held, json, plain), json, plain) == []
  {
    var added := NewEntries(held, json, plain);
    var after := held + added;
    NewEntriesMembers(held, json, plain);
    forall c | c in json ensures !Admitted(after, c) {
      if c.items.Some? {
        if Holds(held, c.id) {
          var k :| 0 <= k < |held| && Ids(held)[k] == c.id;
          assert Ids(after)[k] == c.id;
        } else {
          var x := Normalised(c, plain);
          assert x in added;
          var k :| 0 <= k < |added| && added[k] == x;
          assert Ids(after)[|held| + k] == c.id;
        }
      }
    }
    NothingAdmitted(after, json, plain);
  }

  /** Two equal fresh entries in one response are both added: the check reads the catalog held before the call. */
  lemma DuplicatesInOneResponseKept(held: seq<Component>, c: Component, plain: string -> string)
    requires Admitted(held, c)
    ensures NewEntries(held, [c, c], plain) == [Normalised(c, plain), Normalised(c, plain)]
  {
    assert [c, c][..1] == [c];
    assert [c][..0] == [];
    assert NewEntries(held, [c], plain) == [Normalised(c, plain)];
  }

  /** When a response has no duplicate ids of its own, the merged catalog keeps its ids distinct. */
  lemma {:induction false} MergeKeepsIdsUnique(held: seq<Component>, json: seq<Component>, plain: string -> string)
    requires UniqueIds(held) && UniqueIds(json)
    ensures UniqueIds(held + NewEntries(held, json, plain))
  {
    if json != [] {
      var init := json[..|json| - 1];
      var last := json[|json| - 1];
      assert UniqueIds(init);
      MergeKeepsIdsUnique(held, init, plain);
      var rest := NewEntries(held, init, plain);
      if Admitted(held, last) {
        var x := Normalised(last, plain);
        var all := held + rest + [x];
        forall i, j | 0 <= i < j < |all| ensures all[i].id != all[j].id {
          if j == |all| - 1 {
            if i < |held| {
              assert Ids(held)[i] == all[i].id;
            } else {
              assert all[i] in rest;
              NewEntriesIds(held, init, plain, all[i]);
              var k :| 0 <= k < |init| && Ids(init)[k] == all[i].id;
              assert json[k].id == init[k].id;
            }
          } else {
            assert (held + rest)[i] == all[i] && (held + rest)[j] == all[j];
          }
        }
        assert held + NewEntries(held, json, plain) == all;
      }
    }
  }

  /** The module-level `components` and `componentUrls` arrays of the content script. */
  class Catalog {
    var components: seq<Component>
    var componentUrls: seq<string>

    constructor ()
      ensures components == [] && componentUrls == []
    {
      components := [];
      componentUrls := [];
    }

    /**
     * `setComponents(url)`, given what the fetch yielded: a non-ok status or a
     * thrown error leaves the catalog unchanged; otherwise the admitted
     * entries are appended after all existing ones.
     */
    method SetComponents(res: FetchResult, plain: string -> string)
      modifies this
      ensures componentUrls == old(componentUrls)
      ensures components == if res.Fetched? then old(components) + NewEntries(old(components), res.entries, plain)
                            else old(components)
    {
      if !res.Fetched? {
        return;
      }
      var json := res.entries;
      var newComponents: seq<Component> := [];
      var i := 0;
      while i < |json|
        invariant 0 <= i <= |json|
        invariant newComponents == NewEntries(components, json[..i], plain)
      {
        var c := json[i];
        if c.items.Some? && c.id !in Ids(components) {
          newComponents := newComponents + [c.(body := plain(c.body))];
        }
        assert json[..i + 1][..i] == json[..i];
        i := i + 1;
      }
      assert json[..|json|] == json;
      components := components + newComponents;
    }

    /**
     * The `componentsUrl` message handler: a string URL not seen before is
     * recorded and fetched; any other message changes nothing.
     */
    method OnComponentsUrl(url: Option<string>, res: FetchResult, plain: string -> string) returns (triggered: bool)
      modifies this
      ensures triggered <==> url.Some? && url.value != "" && url.value !in old(componentUrls)
      ensures componentUrls == if triggered then old(componentUrls) + [url.value] else old(componentUrls)
      ensures url.Some? && url.value != "" ==> url.value in componentUrls
      ensures components == if triggered && res.Fetched?
                            then old(components) + NewEntries(old(components), res.entries, plain)
                            else old(components)
    {
      triggered := url.Some? && url.value != "" && url.value !in componentUrls;
      if triggered {
        componentUrls := componentUrls + [url.value];
        SetComponents(res, plain);
      }
    }
  }
}
