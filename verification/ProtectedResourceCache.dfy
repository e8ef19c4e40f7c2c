/**
 The webhook's in-memory index of registrations, kept by informer events and read
 on every request.
 */
module ProtectedResourceCache {
  import opened Names
  import opened ResourceGraph
  import opened Wrappers

  type Index = map<string, ProtectedResource>

  /** What a handler is given: a registration, the tombstone of one, or something else. */
  datatype Delivered = Live(pr: ProtectedResource) | Tombstone(last: Option<ProtectedResource>) | Unexpected

  datatype Event = Added(obj: Delivered) | Updated(was: Delivered, now: Delivered) | Deleted(obj: Delivered)

  function CacheKey(apiGroup: string, plural: string): string {
    apiGroup + "/" + plural
  }

  function KeyOf(pr: ProtectedResource): string {
    CacheKey(pr.spec.service, pr.spec.plural)
  }

  /** The registration that a deletion removes. */
  function Gone(obj: Delivered): Option<ProtectedResource> {
    match obj
    case Live(pr) => Some(pr)
    case Tombstone(last) => last
    case Unexpected => None
  }

  /** What an event does to the index. */
  function Handled(index: Index, e: Event): Index {
    match e
    case Added(obj) => if obj.Live? then index[KeyOf(obj.pr) := obj.pr] else index
    case Updated(was, now) =>
      if !now.Live? then index
      else (if was.Live? && KeyOf(was.pr) != KeyOf(now.pr) then index - {KeyOf(was.pr)} else index)[KeyOf(now.pr) := now.pr]
    case Deleted(obj) => if Gone(obj).Some? then index - {KeyOf(Gone(obj).value)} else index
  }

  class Cache {
    var index: Index

    constructor ()
      ensures index == map[]
    {
      index := map[];
    }

    method Upsert(pr: ProtectedResource)
      modifies this
      ensures index == old(index)[KeyOf(pr) := pr]
    {
      index := index[KeyOf(pr) := pr];
    }

    method Delete(pr: ProtectedResource)
      modifies this
      ensures index == old(index) - {KeyOf(pr)}
    {
      index := index - {KeyOf(pr)};
    }

    method OnAdd(obj: Delivered)
      modifies this
      ensures index == Handled(old(index), Added(obj))
    {
      if obj.Live? {
        Upsert(obj.pr);
      }
    }

    method OnUpdate(was: Delivered, now: Delivered)
      modifies this
      ensures index == Handled(old(index), Updated(was, now))
    {
      if !now.Live? {
        return;
      }
      if was.Live? && KeyOf(was.pr) != KeyOf(now.pr) {
        Delete(was.pr);
      }
      Upsert(now.pr);
    }

    method OnDelete(obj: Delivered)
      modifies this
      ensures index == Handled(old(index), Deleted(obj))
    {
      match obj
      case Live(pr) => Delete(pr);
      case Tombstone(last) =>
        if last.Some? {
          Delete(last.value);
        }
      case Unexpected =>
    }

    /** The registration of a group and plural, as a scan of the live ones would find it. */
    method GetByAPIGroupAndResource(apiGroup: string, resource: string, ghost live: map<string, ProtectedResource>)
      returns (found: Option<ProtectedResource>)
      requires Mirrors(index, live) && '/' !in apiGroup && SlashlessServices(live)
      ensures found.Some? ==> IsLive(live, found.value) && found.value.spec.service == apiGroup && found.value.spec.plural == resource
      ensures found.None? ==> forall pr :: IsLive(live, pr) ==> pr.spec.service != apiGroup || pr.spec.plural != resource
    {
      var key := CacheKey(apiGroup, resource);
      if key !in index {
        return None;
      }
      assert KeyOf(index[key]) == key;
      SplitUnique(index[key].spec.service, index[key].spec.plural, apiGroup, resource, '/');
      return Some(index[key]);
    }
  }

  // ---- The events an informer delivers

  predicate IsLive(live: map<string, ProtectedResource>, pr: ProtectedResource) {
    pr.name in live && live[pr.name] == pr
  }

  predicate SlashlessServices(live: map<string, ProtectedResource>) {
    forall name :: name in live ==> '/' !in live[name].spec.service
  }

  /** The last state that the informer has seen of a live registration: its key is the live one's. */
  predicate IsLastState(live: map<string, ProtectedResource>, pr: ProtectedResource) {
    pr.name in live && CacheKey(live[pr.name].spec.service, live[pr.name].spec.plural) == CacheKey(pr.spec.service, pr.spec.plural)
  }

  /**
   A new name, the last state and its successor, or the last state of a
   registration that is gone, by itself or in a tombstone; or nothing known.
   */
  predicate Delivers(live: map<string, ProtectedResource>, e: Event) {
    match e
    case Added(Live(pr)) => pr.name !in live
    case Updated(Live(was), Live(now)) => IsLive(live, was) && now.name == was.name
    case Deleted(Live(pr)) => IsLastState(live, pr)
    case Deleted(Tombstone(Some(pr))) => IsLastState(live, pr)
    case Added(Unexpected) => true
    case Updated(_, Unexpected) => true
    case Deleted(Unexpected) => true
    case _ => false
  }

  function Next(live: map<string, ProtectedResource>, e: Event): map<string, ProtectedResource>
    requires Delivers(live, e)
  {
    match e
    case Added(Live(pr)) => live[pr.name := pr]
    case Updated(_, Live(now)) => live[now.name := now]
    case Deleted(Live(pr)) => live - {pr.name}
    case Deleted(Tombstone(Some(pr))) => live - {pr.name}
    case _ => live
  }

  /** Live registrations are kept by name, and no two share a key. */
  predicate DistinctKeys(live: map<string, ProtectedResource>) {
    && (forall name :: name in live ==> live[name].name == name)
    && (forall a, b :: a in live && b in live && KeyOf(live[a]) == KeyOf(live[b]) ==> a == b)
  }

  predicate Plays(live: map<string, ProtectedResource>, events: seq<Event>)
    decreases events
  {
    DistinctKeys(live) && (events == [] || (Delivers(live, events[0]) && Plays(Next(live, events[0]), events[1..])))
  }

  function After(live: map<string, ProtectedResource>, events: seq<Event>): map<string, ProtectedResource>
    requires Plays(live, events)
    decreases events
  {
    if events == [] then live else After(Next(live, events[0]), events[1..])
  }

  function HandledAll(index: Index, events: seq<Event>): Index
    decreases events
  {
    if events == [] then index else HandledAll(Handled(index, events[0]), events[1..])
  }

  /** The index holds every live registration under its key, and nothing else. */
  ghost predicate Mirrors(index: Index, live: map<string, ProtectedResource>) {
    && (forall name :: name in live ==> KeyOf(live[name]) in index && index[KeyOf(live[name])] == live[name])
    && (forall key :: key in index ==> IsLive(live, index[key]) && KeyOf(index[key]) == key)
  }

  lemma DropKeepsMirror(index: Index, live: map<string, ProtectedResource>, name: string)
    requires Mirrors(index, live) && DistinctKeys(live) && name in live
    ensures Mirrors(index - {KeyOf(live[name])}, live - {name}) && DistinctKeys(live - {name})
  {
  }

  lemma NewKeepsMirror(index: Index, live: map<string, ProtectedResource>, pr: ProtectedResource)
    requires Mirrors(index, live) && pr.name !in live && DistinctKeys(live[pr.name := pr])
    ensures Mirrors(index[KeyOf(pr) := pr], live[pr.name := pr])
  {
    forall name | name in live
      ensures KeyOf(live[name]) != KeyOf(pr)
    {
      var next := live[pr.name := pr];
      assert next[name] == live[name] && next[pr.name] == pr;
    }
  }

  /** `pr` takes the place of what was live under its name, if anything was. */
  lemma PutKeepsMirror(index: Index, live: map<string, ProtectedResource>, pr: ProtectedResource)
    requires Mirrors(index, live) && DistinctKeys(live) && DistinctKeys(live[pr.name := pr])
    ensures var moved := pr.name in live && KeyOf(live[pr.name]) != KeyOf(pr);
      Mirrors((if moved then index - {KeyOf(live[pr.name])} else index)[KeyOf(pr) := pr], live[pr.name := pr])
  {
    if pr.name in live {
      var was := KeyOf(live[pr.name]);
      DropKeepsMirror(index, live, pr.name);
      assert (live - {pr.name})[pr.name := pr] == live[pr.name := pr];
      NewKeepsMirror(index - {was}, live - {pr.name}, pr);
      if was == KeyOf(pr) {
        assert (index - {was})[was := pr] == index[was := pr];
      }
    } else {
      NewKeepsMirror(index, live, pr);
    }
  }

  lemma EventKeepsMirror(index: Index, live: map<string, ProtectedResource>, e: Event)
    requires Mirrors(index, live) && DistinctKeys(live) && Delivers(live, e) && DistinctKeys(Next(live, e))
    ensures Mirrors(Handled(index, e), Next(live, e))
  {
    match e
    case Added(Live(pr)) => PutKeepsMirror(index, live, pr);
    case Updated(_, Live(now)) => PutKeepsMirror(index, live, now);
    case Deleted(Live(pr)) => DropKeepsMirror(index, live, pr.name);
    case Deleted(Tombstone(Some(pr))) => DropKeepsMirror(index, live, pr.name);
    case _ =>
  }

  /**
   After any sequence of adds, updates (changes of key included) and deletes in
   which the live registrations never share a key, the index is exactly the map
   from key to live registration.
   */
  lemma {:induction false} IndexMirrorsLive(index: Index, live: map<string, ProtectedResource>, events: seq<Event>)
    requires Mirrors(index, live) && Plays(live, events)
    ensures Mirrors(HandledAll(index, events), After(live, events))
    decreases events
  {
    if events != [] {
      EventKeepsMirror(index, live, events[0]);
      IndexMirrorsLive(Handled(index, events[0]), Next(live, events[0]), events[1..]);
    }
  }

  /** Two live registrations with one key: when the first goes, the index loses the second as well. */
  lemma SharedKeyLosesLive(index: Index, a: ProtectedResource, b: ProtectedResource)
    requires a.name != b.name && KeyOf(a) == KeyOf(b)
    ensures var events := [Added(Live(a)), Added(Live(b)), Deleted(Live(a))];
      KeyOf(b) !in HandledAll(index, events)
  {
    var first := Handled(index, Added(Live(a)));
    var second := Handled(first, Added(Live(b)));
    var third := Handled(second, Deleted(Live(a)));
    var events := [Added(Live(a)), Added(Live(b)), Deleted(Live(a))];
    assert events[1..] == [Added(Live(b)), Deleted(Live(a))];
    assert events[1..][1..] == [Deleted(Live(a))];
    assert events[1..][1..][1..] == [];
    assert HandledAll(second, events[1..][1..]) == HandledAll(third, []);
    assert HandledAll(index, events) == HandledAll(first, events[1..]) == HandledAll(second, events[1..][1..]);
  }
}
