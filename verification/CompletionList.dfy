/** The intrusive lists of a proactor channel: operations that are pending and
    operations that completed, linked through their own `next` fields. Handlers
    may post again from inside a delivery and re-enter `update`. */
module CompletionList {
  datatype Kind = NONE | READ | WRITE | UPDATE

  class Over {
    var next: Over?
    const kind: Kind

    constructor (kind: Kind, next: Over?)
      ensures this.kind == kind && this.next == next
    {
      this.kind, this.next := kind, next;
    }
  }

  ghost function Nodes(s: seq<Over>): set<Over> { set x | x in s }

  ghost predicate NoDup(s: seq<Over>) {
    forall i, j :: 0 <= i < j < |s| ==> s[i] != s[j]
  }

  ghost predicate Disjoint(s: seq<Over>, t: seq<Over>) {
    forall x :: x in s ==> x !in t
  }

  ghost predicate LinkAt(s: seq<Over>, i: nat)
    requires i < |s|
    reads s
  {
    s[i].next == (if i + 1 < |s| then s[i + 1] else null)
  }

  /** From `head` the `next` fields lead through exactly the nodes of `s`. */
  ghost predicate Chain(head: Over?, s: seq<Over>)
    reads s
  {
    && NoDup(s)
    && head == (if s == [] then null else s[0])
    && forall i :: 0 <= i < |s| ==> LinkAt(s, i)
  }

  /** Every posting is either delivered or waits in exactly one place. */
  ghost predicate Accounted(posted: seq<Over>, delivered: seq<Over>, pending: seq<Over>, completed: seq<Over>,
                            held: seq<Over>) {
    multiset(posted) == multiset(delivered) + multiset(pending) + multiset(completed) + multiset(held)
  }

  lemma AccountPost(posted: seq<Over>, delivered: seq<Over>, pending: seq<Over>, completed: seq<Over>,
                    held: seq<Over>, x: Over)
    requires Accounted(posted, delivered, pending, completed, held)
    ensures Accounted(posted + [x], delivered, pending + [x], completed, held)
  {
  }

  lemma AccountComplete(posted: seq<Over>, delivered: seq<Over>, pending: seq<Over>, completed: seq<Over>, k: nat)
    requires k < |pending| && Accounted(posted, delivered, pending, completed, [])
    ensures Accounted(posted, delivered, pending[..k] + pending[k + 1..], [pending[k]] + completed, [])
  {
    assert pending == pending[..k] + [pending[k]] + pending[k + 1..];
  }

  lemma AccountEnter(posted: seq<Over>, delivered: seq<Over>, pending: seq<Over>, held: seq<Over>, x: Over)
    requires Accounted(posted, delivered, pending, [], held)
    ensures Accounted(posted + [x], delivered, pending, [x], held)
  {
  }

  lemma AccountDeliver(posted: seq<Over>, delivered: seq<Over>, pending: seq<Over>, held: seq<Over>, x: Over)
    requires Accounted(posted, delivered, pending, [], [x] + held)
    ensures Accounted(posted, delivered + [x], pending, [], held)
  {
  }

  /** What was pending or has been posted was delivered or is pending, node by node. */
  ghost predicate Moved(before: seq<Over>, after: seq<Over>, put: seq<Over>, seen: seq<Over>) {
    multiset(before) + multiset(put) == multiset(seen) + multiset(after)
  }

  lemma AllMoved(posted: seq<Over>, posted': seq<Over>, delivered: seq<Over>, seen: seq<Over>,
                 pending: seq<Over>, pending': seq<Over>, held: seq<Over>)
    requires Accounted(posted, delivered, pending, [], held)
    requires Accounted(posted', delivered + seen, pending', [], held) && posted <= posted'
    ensures Moved(pending, pending', posted'[|posted|..], seen)
  {
    var put := posted'[|posted|..];
    assert posted' == posted + put;
    assert multiset(posted') == multiset(posted) + multiset(put);
    assert multiset(delivered + seen) == multiset(delivered) + multiset(seen);
    Cancel(multiset(posted), multiset(delivered), multiset(pending), multiset(held),
           multiset(put), multiset(seen), multiset(pending'));
  }

  lemma Cancel<T>(a: multiset<T>, d: multiset<T>, p: multiset<T>, h: multiset<T>, put: multiset<T>,
                  seen: multiset<T>, p': multiset<T>)
    requires a == d + p + h && a + put == (d + seen) + p' + h
    ensures p + put == seen + p'
  {
    forall x
      ensures (p + put)[x] == (seen + p')[x]
    {
      assert (a + put)[x] == ((d + seen) + p' + h)[x];
      assert a[x] == (d + p + h)[x];
    }
  }

  lemma PutKnown(before: seq<Over>, after: seq<Over>, put: seq<Over>, seen: seq<Over>)
    requires Moved(before, after, put, seen)
    ensures forall x :: x in put ==> x in seen || x in after
  {
    forall x | x in put
      ensures x in seen || x in after
    {
      assert x in multiset(before) + multiset(put);
    }
  }

  lemma HeldTail(x: Over, held: seq<Over>)
    requires NoDup([x] + held)
    ensures NoDup(held) && x !in held
  {
    assert forall i :: 0 <= i < |held| ==> held[i] == ([x] + held)[i + 1];
    assert ([x] + held)[0] == x;
  }

  lemma HeldJoin(pending: seq<Over>, todo: seq<Over>, held: seq<Over>)
    requires NoDup(todo) && NoDup(held) && Disjoint(held, todo) && Disjoint(held, pending) && Disjoint(pending, todo)
    ensures NoDup(todo + held) && Disjoint(todo + held, pending)
  {
    var s := todo + held;
    forall i, j | 0 <= i < j < |s|
      ensures s[i] != s[j]
    {
      if i < |todo| <= j { assert held[j - |todo|] in held; }
    }
  }

  lemma {:induction false} SizeOf(scripts: seq<seq<Act>>, i: nat)
    requires i < |scripts|
    ensures Size(scripts[i]) <= SizeAll(scripts)
    decreases i
  {
    if i > 0 { SizeOf(scripts[1..], i - 1); }
  }

  lemma {:induction false} OnlyAppend(s: seq<Over>, t: seq<Over>, keep: seq<Over>)
    ensures Only(s + t, keep) == Only(s, keep) + Only(t, keep)
    decreases |s|
  {
    if s == [] {
      assert s + t == t;
    } else {
      assert (s + t)[1..] == s[1..] + t && (s + t)[0] == s[0];
      OnlyAppend(s[1..], t, keep);
      var first := if s[0] in keep then [s[0]] else [];
      assert first + (Only(s[1..], keep) + Only(t, keep)) == (first + Only(s[1..], keep)) + Only(t, keep);
    }
  }

  lemma {:induction false} OnlyNone(s: seq<Over>, keep: seq<Over>)
    requires Disjoint(s, keep)
    ensures Only(s, keep) == []
    decreases |s|
  {
    if s != [] { OnlyNone(s[1..], keep); }
  }

  /** One more delivery: the next node of `todo`, then nodes that are not in it. */
  lemma SeenNext(seen: seq<Over>, todo: seq<Over>, i: nat, later: seq<Over>)
    requires i < |todo| && Only(seen, todo) == todo[..i] && Disjoint(later, todo)
    ensures Only(seen + [todo[i]] + later, todo) == todo[..i + 1]
  {
    OnlyAppend(seen + [todo[i]], later, todo);
    OnlyAppend(seen, [todo[i]], todo);
    OnlyNone(later, todo);
    assert todo[i] in todo && [todo[i]][1..] == [];
    assert Only([todo[i]], todo) == [todo[i]] + Only([], todo);
  }

  lemma AccountTake(posted: seq<Over>, delivered: seq<Over>, pending: seq<Over>, completed: seq<Over>, held: seq<Over>)
    requires Accounted(posted, delivered, pending, completed, held)
    ensures Accounted(posted, delivered, pending, [], completed + held)
  {
  }

  /** What a handler does before it returns. `Repost` posts the delivered node
      again, `Post` a new one, `Update` re-enters the channel with a temporary
      node whose handler acts in turn. */
  datatype Act = Repost | Post(kind: Kind) | Update(acts: seq<Act>)

  function Reposts(acts: seq<Act>): nat {
    if acts == [] then 0 else (if acts[0].Repost? then 1 else 0) + Reposts(acts[1..])
  }

  /** A node is posted again at most once, and the temporary node never is. */
  ghost predicate Allowed(kind: Kind, acts: seq<Act>)
    decreases acts
  {
    && (kind == NONE ==> acts == [])
    && Reposts(acts) <= (if kind == UPDATE then 0 else 1)
    && forall i :: 0 <= i < |acts| && acts[i].Update? ==> Allowed(UPDATE, acts[i].acts)
  }

  function Size(acts: seq<Act>): nat {
    if acts == [] then 0
    else 1 + (if acts[0].Update? then Size(acts[0].acts) else 0) + Size(acts[1..])
  }

  function SizeAll(scripts: seq<seq<Act>>): nat {
    if scripts == [] then 0 else Size(scripts[0]) + SizeAll(scripts[1..])
  }

  /** The nodes of `s` that are also in `keep`, in order. */
  ghost function Only(s: seq<Over>, keep: seq<Over>): seq<Over> {
    if s == [] then [] else (if s[0] in keep then [s[0]] else []) + Only(s[1..], keep)
  }

  ghost function Kinds(s: seq<Over>): seq<Kind> { seq(|s|, i requires 0 <= i < |s| => s[i].kind) }

  lemma KindsAppend(s: seq<Over>, t: seq<Over>)
    ensures Kinds(s + t) == Kinds(s) + Kinds(t)
  {
  }

  /** What a handler of a node of kind `k` posts, in order, and which temporary
      nodes are delivered while it runs. */
  ghost function Posts(k: Kind, acts: seq<Act>): seq<Kind>
    decreases acts
  {
    if acts == [] then [] else PostsOf(k, acts[0]) + Posts(k, acts[1..])
  }

  ghost function PostsOf(k: Kind, act: Act): seq<Kind>
    decreases act
  {
    match act
    case Repost => [k]
    case Post(kind) => [kind]
    case Update(inner) => Posts(UPDATE, inner)
  }

  ghost function Entered(acts: seq<Act>): seq<Kind> {
    if acts == [] then [] else EnteredBy(acts[0]) + Entered(acts[1..])
  }

  ghost function EnteredBy(act: Act): seq<Kind> {
    if act.Update? then [UPDATE] + Entered(act.acts) else []
  }

  /** The same for the first `n` nodes of a list in turn. */
  ghost function PostsAll(ks: seq<Kind>, scripts: seq<seq<Act>>, n: nat): seq<Kind>
    requires n <= |ks| == |scripts|
  {
    if n == 0 then [] else PostsAll(ks, scripts, n - 1) + Posts(ks[n - 1], scripts[n - 1])
  }

  ghost function SeenAll(ks: seq<Kind>, scripts: seq<seq<Act>>, n: nat): seq<Kind>
    requires n <= |ks| == |scripts|
  {
    if n == 0 then [] else SeenAll(ks, scripts, n - 1) + [ks[n - 1]] + Entered(scripts[n - 1])
  }

  lemma OneScript(k: Kind, acts: seq<Act>)
    ensures PostsAll([k], [acts], 1) == Posts(k, acts)
    ensures SeenAll([k], [acts], 1) == [k] + Entered(acts)
  {
    assert PostsAll([k], [acts], 0) == [] && SeenAll([k], [acts], 0) == [];
  }

  /** After `i` nodes of `todo`: `news` and `seen` are what their handlers posted
      and what was delivered, and a node posted again is among the new ones. */
  ghost predicate Told(todo: seq<Over>, scripts: seq<seq<Act>>, i: nat, news: seq<Over>, seen: seq<Over>) {
    && i <= |todo| == |scripts|
    && Kinds(news) == PostsAll(Kinds(todo), scripts, i) && Kinds(seen) == SeenAll(Kinds(todo), scripts, i)
    && forall j :: 0 <= j < i && Reposts(scripts[j]) > 0 ==> todo[j] in news
  }

  lemma ToldNone(todo: seq<Over>, scripts: seq<seq<Act>>)
    requires |todo| == |scripts|
    ensures Told(todo, scripts, 0, [], [])
  {
  }

  lemma ToldNext(todo: seq<Over>, scripts: seq<seq<Act>>, i: nat, news: seq<Over>, more: seq<Over>,
                 seen: seq<Over>, later: seq<Over>)
    requires i < |todo| && Told(todo, scripts, i, news, seen)
    requires Kinds(more) == Posts(todo[i].kind, scripts[i]) && Kinds(later) == Entered(scripts[i])
    requires Reposts(scripts[i]) > 0 ==> todo[i] in more
    ensures Told(todo, scripts, i + 1, news + more, seen + [todo[i]] + later)
  {
    hide Posts, Entered, Reposts;
    KindsAppend(news, more);
    KindsAppend(seen + [todo[i]], later);
    KindsAppend(seen, [todo[i]]);
    assert Kinds([todo[i]]) == [Kinds(todo)[i]];
  }

  lemma ToldOne(node: Over, acts: seq<Act>, news: seq<Over>, seen: seq<Over>)
    requires Told([node], [acts], 1, news, seen)
    ensures Kinds(news) == Posts(node.kind, acts) && Kinds(seen) == [node.kind] + Entered(acts)
    ensures Reposts(acts) > 0 ==> node in news
  {
    hide Posts, Entered, Reposts;
    assert Kinds([node]) == [node.kind];
    OneScript(node.kind, acts);
    assert [node][0] == node && [acts][0] == acts;
  }

  lemma NoActs(k: Kind)
    ensures Posts(k, []) == [] && Entered([]) == [] && Kinds([]) == [] && Reposts([]) == 0
  {
  }

  /** One act and then the others. */
  lemma ActsKinds(k: Kind, acts: seq<Act>, news: seq<Over>, more: seq<Over>, seen: seq<Over>, later: seq<Over>)
    requires acts != []
    requires Kinds(news) == PostsOf(k, acts[0]) && Kinds(seen) == EnteredBy(acts[0])
    requires Kinds(more) == Posts(k, acts[1..]) && Kinds(later) == Entered(acts[1..])
    ensures Kinds(news + more) == Posts(k, acts) && Kinds(seen + later) == Entered(acts)
  {
    hide PostsOf, EnteredBy;
    KindsAppend(news, more);
    KindsAppend(seen, later);
  }

  // ---------- runs of a channel ----------

  datatype Event = Completion(pick: nat, script: Kind -> seq<Act>) | Updated(acts: seq<Act>) | Posted(kind: Kind) {
    ghost predicate Ok() {
      match this
      case Completion(_, script) => forall kind :: Allowed(kind, script(kind))
      case Updated(acts) => Allowed(UPDATE, acts)
      case Posted(_) => true
    }
  }

  /** The kinds of the pending nodes and of all deliveries so far, in order. */
  datatype Trace = Traced(pending: seq<Kind>, delivered: seq<Kind>)

  function Chosen(pick: nat, n: nat): nat
    requires n > 0
  {
    if pick < n then pick else n - 1
  }

  /** What one event means for the kinds; with nothing pending nothing completes. */
  ghost function StepKinds(t: Trace, e: Event): Trace {
    match e
    case Posted(kind) => t.(pending := t.pending + [kind])
    case Updated(acts) => Traced(t.pending + Posts(UPDATE, acts), t.delivered + ([UPDATE] + Entered(acts)))
    case Completion(pick, script) =>
      if t.pending == [] then t
      else
        var k := Chosen(pick, |t.pending|);
        var kind := t.pending[k];
        Traced(t.pending[..k] + t.pending[k + 1..] + Posts(kind, script(kind)),
               t.delivered + ([kind] + Entered(script(kind))))
  }

  ghost function After(t: Trace, events: seq<Event>, n: nat): Trace
    requires n <= |events|
  {
    if n == 0 then t else StepKinds(After(t, events, n - 1), events[n - 1])
  }

  // ---------- what the posts come to ----------

  /** How many operations of kind `w` a handler of a node of kind `k` posts, at any
      depth of re-entry. */
  ghost function Calls(w: Kind, k: Kind, acts: seq<Act>): nat
    decreases acts
  {
    if acts == [] then 0 else CallsOf(w, k, acts[0]) + Calls(w, k, acts[1..])
  }

  ghost function CallsOf(w: Kind, k: Kind, act: Act): nat
    decreases act
  {
    match act
    case Repost => if w == k then 1 else 0
    case Post(kind) => if w == kind then 1 else 0
    case Update(inner) => Calls(w, UPDATE, inner)
  }

  /** How many re-entries there are. */
  ghost function Entries(acts: seq<Act>): nat {
    if acts == [] then 0 else (if acts[0].Update? then 1 + Entries(acts[0].acts) else 0) + Entries(acts[1..])
  }

  /** Every post of a handler counts, whatever its depth, and nothing else does. */
  lemma {:induction false} PostsCounted(w: Kind, k: Kind, acts: seq<Act>)
    ensures multiset(Posts(k, acts))[w] == Calls(w, k, acts)
    decreases acts
  {
    if acts != [] {
      ActCounted(w, k, acts[0]);
      PostsCounted(w, k, acts[1..]);
      assert Posts(k, acts) == PostsOf(k, acts[0]) + Posts(k, acts[1..]);
      hide Posts, PostsOf, CallsOf;
    }
  }

  lemma {:induction false} ActCounted(w: Kind, k: Kind, act: Act)
    ensures multiset(PostsOf(k, act))[w] == CallsOf(w, k, act)
    decreases act
  {
    hide Posts, Calls;
    match act
    case Repost =>
    case Post(_) =>
    case Update(inner) => PostsCounted(w, UPDATE, inner);
  }

  /** Posts keep their order: what an act posts comes before what later ones do. */
  lemma PostsInOrder(k: Kind, w: Kind, inner: seq<Act>, acts: seq<Act>)
    ensures Posts(k, []) == []
    ensures Posts(k, [Post(w)] + acts) == [w] + Posts(k, acts)
    ensures Posts(k, [Repost] + acts) == [k] + Posts(k, acts)
    ensures Posts(k, [Update(inner)] + acts) == Posts(UPDATE, inner) + Posts(k, acts)
  {
    hide Posts;
    PostsFirst(k, Post(w), acts);
    PostsFirst(k, Repost, acts);
    PostsFirst(k, Update(inner), acts);
    NoActs(k);
  }

  lemma PostsFirst(k: Kind, act: Act, acts: seq<Act>)
    ensures Posts(k, [act] + acts) == PostsOf(k, act) + Posts(k, acts)
  {
    assert ([act] + acts)[1..] == acts && ([act] + acts)[0] == act;
    hide PostsOf;
  }

  /** Only temporary nodes are delivered during a handler, one for each re-entry. */
  lemma {:induction false} EnteredMeans(acts: seq<Act>)
    ensures |Entered(acts)| == Entries(acts) && forall i :: 0 <= i < |Entered(acts)| ==> Entered(acts)[i] == UPDATE
    decreases acts
  {
    if acts != [] {
      EnteredMeans(acts[1..]);
      if acts[0].Update? { EnteredMeans(acts[0].acts); }
    }
  }

  /** What the handlers of the write and read operations do is allowed: a read posts
      itself again after the message callback, which may send; a write posts itself
      again or not; an update posts a write. */
  lemma UsualHandlers()
    ensures Allowed(UPDATE, [Post(WRITE)]) && Allowed(UPDATE, [])
    ensures Allowed(WRITE, [Repost]) && Allowed(WRITE, [Update([])])
    ensures Allowed(READ, [Repost]) && Allowed(READ, []) && Allowed(READ, [Update([Post(WRITE)]), Repost])
    ensures Allowed(NONE, [])
  {
    RepostsOf([]);
    assert Reposts([Post(WRITE)]) == 0 && Reposts([Repost]) == 1 && Reposts([Update([])]) == 0;
    assert [Update([Post(WRITE)]), Repost][1..] == [Repost];
    assert Reposts([Update([Post(WRITE)]), Repost]) == 1;
  }

  lemma RepostsOf(acts: seq<Act>)
    ensures Reposts([Repost] + acts) == 1 + Reposts(acts) && Reposts([]) == 0
    ensures forall kind :: Reposts([Post(kind)] + acts) == Reposts(acts)
    ensures forall inner :: Reposts([Update(inner)] + acts) == Reposts(acts)
  {
    assert forall a: Act :: ([a] + acts)[1..] == acts && ([a] + acts)[0] == a;
  }

  /** An event changes the lists as it should: a post adds one node at the end; an
      update delivers its temporary node first; a completion takes out the node
      chosen and no other, and delivers it first; and the posts follow. */
  lemma EventMeans(t: Trace, e: Event)
    ensures e.Posted? ==> StepKinds(t, e) == Traced(t.pending + [e.kind], t.delivered)
    ensures e.Updated? ==>
      StepKinds(t, e) == Traced(t.pending + Posts(UPDATE, e.acts), t.delivered + [UPDATE] + Entered(e.acts))
    ensures e.Completion? && t.pending == [] ==> StepKinds(t, e) == t
    ensures e.Completion? && t.pending != [] ==> exists before, k, after :: TakenOut(t, e, before, k, after)
  {
    hide Posts, Entered;
    if e.Completion? && t.pending != [] {
      var i := Chosen(e.pick, |t.pending|);
      var before, k, after := t.pending[..i], t.pending[i], t.pending[i + 1..];
      assert t.delivered + ([k] + Entered(e.script(k))) == t.delivered + [k] + Entered(e.script(k));
      assert TakenOut(t, e, before, k, after);
    }
    if e.Updated? {
      assert t.delivered + ([UPDATE] + Entered(e.acts)) == t.delivered + [UPDATE] + Entered(e.acts);
    }
  }

  /** A run takes its events one after another, all of them. */
  lemma EventAfterEvent(t: Trace, events: seq<Event>, n: nat)
    requires n < |events|
    ensures After(t, events, 0) == t && After(t, events, n + 1) == StepKinds(After(t, events, n), events[n])
  {
  }

  ghost predicate TakenOut(t: Trace, e: Event, before: seq<Kind>, k: Kind, after: seq<Kind>)
    requires e.Completion?
  {
    && t.pending == before + [k] + after && (|before| == e.pick || (|before| < e.pick && after == []))
    && StepKinds(t, e) == Traced(before + after + Posts(k, e.script(k)), t.delivered + [k] + Entered(e.script(k)))
  }

  /** A send from the message callback: the read completes, the write it causes is
      pending, and then the read again. */
  lemma SendFromCallback()
    ensures var e := Completion(0, ReadThatSends);
      e.Ok() && StepKinds(Traced([READ], []), e) == Traced([WRITE, READ], [READ, UPDATE])
  {
    var acts := ReadThatSends(READ);
    SendPosts();
    forall k
      ensures Allowed(k, ReadThatSends(k))
    {
      UsualHandlers();
      NothingAllowed(k);
    }
    hide Posts, Entered, Allowed;
    assert [] + [UPDATE] == [UPDATE] && [READ][..0] + [READ][1..] == [];
  }

  function ReadThatSends(k: Kind): seq<Act> {
    if k == READ then [Update([Post(WRITE)]), Repost] else []
  }

  lemma SendPosts()
    ensures Posts(READ, ReadThatSends(READ)) == [WRITE, READ] && Entered(ReadThatSends(READ)) == [UPDATE]
  {
    var acts, send := ReadThatSends(READ), [Post(WRITE)];
    PostsInOrder(READ, WRITE, send, [Repost]);
    PostsInOrder(READ, WRITE, send, []);
    PostsInOrder(UPDATE, WRITE, send, []);
    assert acts == [Update(send)] + [Repost] && [Repost] == [Repost] + [] && send == send + [];
    EnteredMeans(acts);
    assert acts[1..] == [Repost] && [Repost][1..] == [] && send[1..] == [];
    assert Entries(send) == 0 && Entries([Repost]) == 0 && Entries(acts) == 1;
  }

  lemma NothingAllowed(k: Kind)
    ensures Allowed(k, [])
  {
  }

  class Channel {
    var over: Over?
    var rover: Over?
    ghost var pending: seq<Over>
    ghost var completed: seq<Over>
    ghost var posted: seq<Over>     // every node ever put on a list, in order
    ghost var delivered: seq<Over>  // every node ever passed to a handler, in order

    /** `held` are the nodes a running `HandleEvent` has taken off the lists.
        Every posting is accounted for: delivered, or in exactly one place. */
    ghost predicate Inv(held: seq<Over>)
      reads this, pending, completed
    {
      && Chain(over, pending) && Chain(rover, completed) && Disjoint(pending, completed)
      && NoDup(held) && Disjoint(held, pending) && Disjoint(held, completed)
      && Accounted(posted, delivered, pending, completed, held)
    }

    ghost predicate Valid()
      reads this, pending, completed
    {
      Inv([])
    }

    constructor ()
      ensures Valid() && pending == [] && completed == [] && delivered == []
    {
      over, rover := null, null;
      pending, completed, posted, delivered := [], [], [], [];
    }

    /** Appends a node to the pending list. */
    method AddOver(node: Over, ghost held: seq<Over>)
      requires Inv(held) && node !in pending && node !in completed && node !in held && node.next == null
      modifies this`over, this`pending, this`posted, pending`next
      ensures Inv(held) && pending == old(pending) + [node]
      ensures posted == old(posted) + [node]
    {
      hide Accounted;
      AccountPost(posted, delivered, pending, completed, held, node);
      var ptr := over;
      if ptr == null {
        assert pending + [node] == [node];
        over := node;
        pending, posted := [node], posted + [node];
        return;
      }
      ghost var i := 0;
      while ptr.next != null
        invariant 0 <= i < |pending| && ptr == pending[i]
        decreases |pending| - i
      {
        assert LinkAt(pending, i);
        ptr := ptr.next;
        i := i + 1;
      }
      assert LinkAt(pending, i);
      ghost var before := pending;
      ptr.next := node;
      pending, posted := pending + [node], posted + [node];
      forall k | 0 <= k < |pending|
        ensures LinkAt(pending, k)
      {
        if k < i { assert old(LinkAt(before, k)); }
      }
      assert before[i] in before && ptr !in completed;
    }

    /** One completion of `process`: the node leaves the pending list, whatever its
        position, and goes to the front of the completed list. A node that is not
        pending ends in `abort`. */
    method Complete(node: Over) returns (aborted: bool, ghost k: nat)
      requires Valid() && pending != [] && node !in completed
      modifies this`over, this`rover, this`pending, this`completed, pending`next, node`next
      ensures aborted <==> node !in old(pending)
      ensures aborted ==> Valid() && pending == old(pending) && completed == old(completed)
      ensures !aborted ==> Valid() && completed == [node] + old(completed)
      ensures !aborted ==> k < |old(pending)| && old(pending)[k] == node
      ensures !aborted ==> pending == old(pending)[..k] + old(pending)[k + 1..]
    {
      hide Accounted;
      k := 0;
      if over == node {
        assert LinkAt(pending, 0);
        AccountComplete(posted, delivered, pending, completed, 0);
        over := over.next;
        node.next := rover;
        rover := node;
        forall i | 0 <= i < |completed| ensures LinkAt(completed, i) { assert old(LinkAt(completed, i)); }
        forall i | 1 <= i < |pending| ensures LinkAt(pending, i) { assert old(LinkAt(pending, i)); }
        Relinked(0);
        return false, 0;
      }
      var prev := over;
      assert LinkAt(pending, 0);
      var cur := over.next;
      k := 1;
      while cur != null
        invariant 1 <= k <= |pending| && prev == pending[k - 1]
        invariant cur == (if k < |pending| then pending[k] else null)
        invariant node !in pending[..k]
        decreases |pending| - k
      {
        assert LinkAt(pending, k);
        if cur == node {
          AccountComplete(posted, delivered, pending, completed, k);
          prev.next := cur.next;
          cur.next := rover;
          rover := node;
          forall i | 0 <= i < |completed| ensures LinkAt(completed, i) {
            assert old(LinkAt(completed, i)) && completed[i] in completed && pending[k - 1] in pending;
          }
          forall i | 0 <= i < |pending| && i != k && i + 1 != k ensures LinkAt(pending, i) {
            assert old(LinkAt(pending, i));
          }
          Relinked(k);
          return false, k;
        }
        prev := cur;
        cur := cur.next;
        k := k + 1;
      }
      aborted := true;
    }

    /** Records a completed relinking: both chains are intact again. */
    ghost method Relinked(k: nat)
      requires k < |pending| && NoDup(pending) && NoDup(completed) && Disjoint(pending, completed)
      requires Accounted(posted, delivered, pending[..k] + pending[k + 1..], [pending[k]] + completed, [])
      requires over == (if k > 0 then pending[0] else if |pending| > 1 then pending[1] else null)
      requires rover == pending[k] && rover.next == (if completed == [] then null else completed[0])
      requires forall i :: 0 <= i < |completed| ==> LinkAt(completed, i)
      requires forall i :: 0 <= i < |pending| && i != k && i + 1 != k ==> LinkAt(pending, i)
      requires k > 0 ==> pending[k - 1].next == (if k + 1 < |pending| then pending[k + 1] else null)
      modifies this`pending, this`completed
      ensures Valid()
      ensures pending == old(pending[..k] + pending[k + 1..]) && completed == old([pending[k]] + completed)
    {
      hide Accounted;
      ghost var p, c := pending, completed;
      pending, completed := p[..k] + p[k + 1..], [p[k]] + c;
      forall i | 0 <= i < |pending|
        ensures LinkAt(pending, i)
      {
        if i + 1 < k { assert LinkAt(p, i); } else if i >= k { assert LinkAt(p, i + 1); }
      }
      forall i | 0 <= i < |completed|
        ensures LinkAt(completed, i)
      {
        if i > 0 { assert LinkAt(c, i - 1); }
      }
      assert p[k] in p;
    }

    // ---------- delivery ----------

    /** `IOCPFdEventManager::update`: a temporary node goes to the front of the
        completed list, and the list is delivered at once. */
    method Update(acts: seq<Act>, ghost held: seq<Over>) returns (ghost news: seq<Over>, ghost seen: seq<Over>)
      requires Inv(held) && completed == [] && Allowed(UPDATE, acts)
      modifies this, Nodes(pending)`next
      ensures Inv(held) && completed == [] && pending == old(pending) + news
      ensures forall x :: x in news ==> fresh(x)
      ensures delivered == old(delivered) + seen && forall x :: x in seen ==> fresh(x)
      ensures Kinds(news) == Posts(UPDATE, acts) && Kinds(seen) == [UPDATE] + Entered(acts)
      ensures old(posted) <= posted
      ensures Moved(old(pending), pending, posted[|old(posted)|..], seen)
      ensures forall x :: x in held ==> x.next == old(x.next)
      decreases Size(acts), 4
    {
      hide Accounted, Allowed, Only, Posts, Entered, Told, Kinds;
      InvAccounts(held);
      var u := new Over(UPDATE, rover);
      AccountEnter(posted, delivered, pending, held, u);
      rover, posted, completed := u, posted + [u], [u];
      assert SizeAll([acts]) == Size(acts);
      news, seen := HandleEvent([acts], held);
      ToldOne(u, acts, news, seen);
      InvAccounts(held);
      AllMoved(old(posted), posted, old(delivered), seen, old(pending), pending, held);
    }

    /** The handler of one node, which is in nobody's hands but the handler's. */
    method Dispatch(node: Over, acts: seq<Act>, ghost held: seq<Over>)
      returns (ghost news: seq<Over>, ghost seen: seq<Over>)
      requires Inv([node] + held) && node.next == null && completed == [] && Allowed(node.kind, acts)
      modifies this, Nodes(pending)`next, node`next
      ensures Inv(held) && completed == [] && pending == old(pending) + news
      ensures forall x :: x in news ==> x == node || fresh(x)
      ensures delivered == old(delivered) + [node] + seen && forall x :: x in seen ==> fresh(x)
      ensures Kinds(news) == Posts(node.kind, acts) && Kinds(seen) == Entered(acts)
      ensures node in news <==> Reposts(acts) > 0
      ensures old(posted) <= posted
      ensures forall x :: x in held ==> x.next == old(x.next)
      decreases Size(acts), 1
    {
      hide Accounted, Only, Posts, Entered, Chain, LinkAt, NoDup, Kinds;
      NoActs(node.kind);
      AccountDeliver(posted, delivered, pending, held, node);
      HeldTail(node, held);
      assert node in [node] + held;
      delivered := delivered + [node];
      news, seen := [], [];
      match node.kind
      case NONE =>
      case READ | WRITE | UPDATE =>
        news, seen := Handle(node, acts, held);
    }

    method Handle(node: Over, acts: seq<Act>, ghost held: seq<Over>)
      returns (ghost news: seq<Over>, ghost seen: seq<Over>)
      requires Inv(held) && completed == [] && Reposts(acts) <= 1
      requires forall i :: 0 <= i < |acts| && acts[i].Update? ==> Allowed(UPDATE, acts[i].acts)
      requires Reposts(acts) > 0 ==> node !in pending && node !in held && node.next == null
      modifies this, Nodes(pending)`next, node`next
      ensures Inv(held) && completed == [] && pending == old(pending) + news
      ensures forall x :: x in news ==> (x == node && Reposts(acts) > 0) || fresh(x)
      ensures delivered == old(delivered) + seen && forall x :: x in seen ==> fresh(x)
      ensures Kinds(news) == Posts(node.kind, acts) && Kinds(seen) == Entered(acts)
      ensures node in news <==> Reposts(acts) > 0
      ensures old(posted) <= posted
      ensures forall x :: x in held ==> x.next == old(x.next)
      decreases Size(acts), 0
    {
      hide Accounted, Allowed, Chain, NoDup, Posts, Entered, PostsOf, EnteredBy;
      NoActs(node.kind);
      news, seen := [], [];
      if acts == [] {
        return;
      }
      news, seen := Perform(node, acts[0], held);
      ghost var more, later := Handle(node, acts[1..], held);
      ActsKinds(node.kind, acts, news, more, seen, later);
      news, seen := news + more, seen + later;
    }

    method Perform(node: Over, act: Act, ghost held: seq<Over>) returns (ghost news: seq<Over>, ghost seen: seq<Over>)
      requires Inv(held) && completed == [] && (act.Update? ==> Allowed(UPDATE, act.acts))
      requires act.Repost? ==> node !in pending && node !in held && node.next == null
      modifies this, Nodes(pending)`next, node`next
      ensures Inv(held) && completed == [] && pending == old(pending) + news
      ensures forall x :: x in news ==> (x == node && act.Repost?) || fresh(x)
      ensures delivered == old(delivered) + seen && forall x :: x in seen ==> fresh(x)
      ensures Kinds(news) == PostsOf(node.kind, act) && Kinds(seen) == EnteredBy(act)
      ensures node in news <==> act.Repost?
      ensures node !in old(pending) && node !in held ==> node.next == old(node.next)
      ensures old(posted) <= posted
      ensures forall x :: x in held ==> x.next == old(x.next)
      decreases if act.Update? then Size(act.acts) else 0, 5
    {
      hide Accounted, Allowed, Chain, NoDup, Posts, Entered;
      news, seen := [], [];
      match act
      case Repost =>
        AddOver(node, held);
        news := [node];
      case Post(kind) =>
        var x := new Over(kind, null);
        AddOver(x, held);
        news := [x];
      case Update(inner) =>
        news, seen := Update(inner, held);
    }

    /** Delivery of `todo` has reached node `i`: the nodes from there on are linked
        as before and in nobody else's hands, and `seen` covers those before. */
    ghost predicate Midway(todo: seq<Over>, i: nat, held: seq<Over>, seen: seq<Over>)
      reads this, pending, completed, todo
    {
      && i <= |todo| && Inv(todo[i..] + held) && completed == [] && NoDup(todo)
      && Only(seen, todo) == todo[..i]
      && forall j :: i < j < |todo| ==> LinkAt(todo, j)
    }

    method Deliver(ghost todo: seq<Over>, i: nat, node: Over, scripts: seq<seq<Act>>, ghost held: seq<Over>,
                   ghost news: seq<Over>, ghost seen: seq<Over>)
      returns (ghost more: seq<Over>, ghost later: seq<Over>)
      requires i < |todo| == |scripts| && node == todo[i] && node.next == null
      requires Told(todo, scripts, i, news, seen) && Allowed(node.kind, scripts[i])
      requires Midway(todo, i, held, seen)
      modifies this, Nodes(pending)`next, node`next
      ensures Midway(todo, i + 1, held, seen + [todo[i]] + later)
      ensures Told(todo, scripts, i + 1, news + more, seen + [todo[i]] + later)
      ensures i + 1 < |todo| ==> LinkAt(todo, i + 1)
      ensures pending == old(pending) + more && delivered == old(delivered) + [todo[i]] + later
      ensures forall x :: x in more ==> x == node || fresh(x)
      ensures forall x :: x in later ==> fresh(x)
      ensures old(posted) <= posted
      ensures forall x :: x in held ==> x.next == old(x.next)
      decreases SizeAll(scripts), 2
    {
      hide Told, Allowed, Posts, Entered, Reposts, SizeAll;
      ghost var rest := todo[i + 1..] + held;
      assert todo[i..] + held == [node] + rest;
      SizeOf(scripts, i);
      more, later := Dispatch(node, scripts[i], rest);
      ToldNext(todo, scripts, i, news, more, seen, later);
      SeenNext(seen, todo, i, later);
      forall j | i < j < |todo|
        ensures LinkAt(todo, j)
      {
        assert old(LinkAt(todo, j)) && rest[j - i - 1] == todo[j] && todo[j] in rest;
      }
      assert forall x :: x in held ==> x in rest;
    }

    /** The completed list is taken off the channel. */
    method TakeCompleted(ghost held: seq<Over>) returns (node: Over)
      requires Inv(held) && completed != []
      modifies this`rover, this`completed
      ensures Midway(old(completed), 0, held, []) && node == old(completed)[0] && LinkAt(old(completed), 0)
    {
      hide Accounted;
      node := rover;
      AccountTake(posted, delivered, pending, completed, held);
      HeldJoin(pending, completed, held);
      assert completed[0..] == completed && Only([], completed) == completed[..0];
      rover, completed := null, [];
      forall j | 0 <= j < |old(completed)| ensures LinkAt(old(completed), j) { assert old(LinkAt(completed, j)); }
    }

    method Detach(ghost todo: seq<Over>, ghost i: nat, node: Over, ghost held: seq<Over>, ghost seen: seq<Over>)
      requires i < |todo| && node == todo[i] && Midway(todo, i, held, seen)
      modifies node`next
      ensures Midway(todo, i, held, seen) && node.next == null
      ensures forall x :: x in held ==> x.next == old(x.next)
    {
      hide Accounted;
      assert todo[i..] + held == [node] + (todo[i + 1..] + held);
      HeldTail(node, todo[i + 1..] + held);
      assert (todo[i..] + held)[0] == node;
      node.next := null;
      forall k | 0 <= k < |pending|
        ensures LinkAt(pending, k)
      {
        assert old(LinkAt(pending, k)) && pending[k] in pending;
      }
      forall j | i < j < |todo| ensures LinkAt(todo, j) { assert old(LinkAt(todo, j)); }
    }

    lemma InvAccounts(held: seq<Over>)
      requires Inv(held)
      ensures Accounted(posted, delivered, pending, completed, held)
    {
    }

    lemma Delivered(todo: seq<Over>, held: seq<Over>, seen: seq<Over>)
      requires Midway(todo, |todo|, held, seen)
      ensures Inv(held) && completed == [] && Only(seen, todo) == todo
    {
      assert todo[|todo|..] + held == held && todo[..|todo|] == todo;
    }

    /** `handleEvent`: the completed list is taken off the channel and delivered
        node by node; `scripts[i]` is what the handler of the i-th node does. */
    method HandleEvent(scripts: seq<seq<Act>>, ghost held: seq<Over>)
      returns (ghost news: seq<Over>, ghost seen: seq<Over>)
      requires Inv(held) && completed != [] && |scripts| == |completed|
      requires forall i :: 0 <= i < |scripts| ==> Allowed(completed[i].kind, scripts[i])
      modifies this, Nodes(pending)`next, Nodes(completed)`next
      ensures Inv(held) && completed == [] && pending == old(pending) + news
      ensures forall x :: x in news ==> x in old(completed) || fresh(x)
      ensures delivered == old(delivered) + seen && Only(seen, old(completed)) == old(completed)
      ensures forall x :: x in seen ==> x in old(completed) || fresh(x)
      ensures Told(old(completed), scripts, |scripts|, news, seen)
      ensures old(posted) <= posted
      ensures forall x :: x in held ==> x.next == old(x.next)
      decreases SizeAll(scripts), 3
    {
      hide Told, Kinds, Channel.Midway, Channel.Inv, Only, Allowed, Chain, Disjoint, NoDup, Accounted, Size, SizeAll;
      ghost var todo := completed;
      ToldNone(todo, scripts);
      var node: Over? := TakeCompleted(held);
      var i := 0;
      ghost var more, later := [], [];
      var overNext := node.next;
      news, seen := [], [];
      if overNext == null {
        assert |todo| == 1;
        more, later := Deliver(todo, 0, node, scripts, held, news, seen);
        news, seen := news + more, seen + [todo[i]] + later;
        node, i := null, 1;
      }
      while overNext != null
        invariant if node == null then i == |todo| && overNext == null
          else i < |todo| && node == todo[i] && overNext == (if i + 1 < |todo| then todo[i + 1] else null)
        invariant node != null ==> LinkAt(todo, i)
        invariant Midway(todo, i, held, seen)
        invariant pending == old(pending) + news && delivered == old(delivered) + seen
        invariant forall x :: x in news ==> x in todo || fresh(x)
        invariant forall x :: x in seen ==> x in todo || fresh(x)
        invariant old(posted) <= posted
        invariant Told(todo, scripts, i, news, seen)
        invariant forall x :: x in held ==> x.next == old(x.next)
        decreases |todo| - i
      {
        Detach(todo, i, node, held, seen);
        more, later := Deliver(todo, i, node, scripts, held, news, seen);
        news, seen := news + more, seen + [todo[i]] + later;
        node, i := overNext, i + 1;
        overNext := overNext.next;
      }
      if node != null {
        assert i + 1 == |todo|;
        more, later := Deliver(todo, i, node, scripts, held, news, seen);
        news, seen := news + more, seen + [todo[i]] + later;
      }
      assert Midway(todo, |todo|, held, seen);
      Delivered(todo, held, seen);
    }

    /** One round of `process`: an operation that was posted completes and is
        delivered at once. It never ends in `abort`, the node alone leaves the
        pending list, and what its handler posts is appended. */
    method Process(node: Over, acts: seq<Act>) returns (ghost k: nat, ghost news: seq<Over>, ghost seen: seq<Over>)
      requires Valid() && completed == [] && node in pending && Allowed(node.kind, acts)
      modifies this, Nodes(pending)`next
      ensures Valid() && completed == []
      ensures k < |old(pending)| && old(pending)[k] == node
      ensures pending == old(pending)[..k] + old(pending)[k + 1..] + news
      ensures forall x :: x in news ==> x == node || fresh(x)
      ensures delivered == old(delivered) + seen && Only(seen, [node]) == [node]
      ensures old(posted) <= posted
      ensures Moved(old(pending), pending, posted[|old(posted)|..], seen)
        && forall x :: x in seen ==> x == node || fresh(x)
      ensures Kinds(news) == Posts(node.kind, acts) && Kinds(seen) == [node.kind] + Entered(acts)
      ensures Reposts(acts) > 0 ==> node in news
    {
      hide Accounted, Moved, Allowed, Only, Chain, Posts, Entered, Told, Kinds, NoDup, Disjoint, LinkAt,
        Channel.Inv;
      InvAccounts([]);
      var aborted;
      aborted, k := Complete(node);
      assert !aborted && completed == [node];
      news, seen := HandleEvent([acts], []);
      ToldOne(node, acts, news, seen);
      InvAccounts([]);
      AllMoved(old(posted), posted, old(delivered), seen, old(pending), pending, []);
    }

    /** The operation the system completes next: the one at position `k`, or the
        last if there are fewer. */
    method Picked(k: nat) returns (node: Over)
      requires Valid() && over != null
      ensures pending != [] && node == pending[Chosen(k, |pending|)]
    {
      hide Accounted;
      node := over;
      var i := 0;
      while i < k && node.next != null
        invariant i <= k && i < |pending| && node == pending[i]
        decreases |pending| - i
      {
        assert LinkAt(pending, i);
        node, i := node.next, i + 1;
      }
      assert LinkAt(pending, i);
    }

    ghost function Trace(): Trace
      reads this
    {
      Traced(Kinds(pending), Kinds(delivered))
    }

    /** Everything that happens to a channel, one event after another: completions
        of pending operations as the system picks them, updates, and posts from
        outside the handlers. */
    method ProcessAll(events: seq<Event>)
      requires Valid() && completed == [] && forall i :: 0 <= i < |events| ==> events[i].Ok()
      modifies this, Nodes(pending)`next
      ensures Valid() && completed == []
      ensures multiset(posted) == multiset(delivered) + multiset(pending)
      ensures old(delivered) <= delivered && old(posted) <= posted
      ensures Moved(old(pending), pending, posted[|old(posted)|..], delivered[|old(delivered)|..])
      ensures forall x :: x in posted[|old(posted)|..] ==> x in old(pending) || fresh(x)
      ensures Trace() == After(old(Trace()), events, |events|)
      ensures forall x :: x in pending ==> x in old(pending) || fresh(x)
    {
      hide Chain, Disjoint, NoDup, LinkAt, StepKinds, Kinds, Event.Ok, Accounted, Moved;
      InvAccounts([]);
      for n := 0 to |events|
        invariant Valid() && completed == [] && old(delivered) <= delivered && old(posted) <= posted
        invariant forall x :: x in posted[|old(posted)|..] ==> x in old(pending) || fresh(x)
        invariant forall x :: x in pending ==> x in old(pending) || fresh(x)
        invariant Trace() == After(old(Trace()), events, n)
      {
        assert events[n].Ok();
        ghost var before := posted;
        Happen(events[n]);
        assert posted[|old(posted)|..] == before[|old(posted)|..] + posted[|before|..];
      }
      InvAccounts([]);
      assert delivered == old(delivered) + delivered[|old(delivered)|..];
      AllMoved(old(posted), posted, old(delivered), delivered[|old(delivered)|..], old(pending), pending, []);
    }

    method Happen(e: Event)
      requires Valid() && completed == [] && e.Ok()
      modifies this, Nodes(pending)`next
      ensures Valid() && completed == [] && old(delivered) <= delivered && old(posted) <= posted
      ensures forall x :: x in posted[|old(posted)|..] ==> x in old(pending) || fresh(x)
      ensures Trace() == StepKinds(old(Trace()), e)
      ensures forall x :: x in pending ==> x in old(pending) || fresh(x)
    {
      hide Accounted, Allowed, Only, Chain, Disjoint, NoDup, LinkAt, Posts, Entered;
      NoneLeft();
      ghost var was, done := pending, delivered;
      match e
      case Posted(kind) =>
        var x := new Over(kind, null);
        AddOver(x, []);
        KindsAppend(was, [x]);
        assert Kinds([x]) == [kind];
      case Updated(acts) =>
        ghost var news, seen := Update(acts, []);
        PutKnown(was, pending, posted[|old(posted)|..], seen);
        KindsAppend(was, news);
        KindsAppend(done, seen);
      case Completion(pick, script) =>
        if over != null {
          var node := Picked(pick);
          ghost var k, news, seen := Process(node, script(node.kind));
          PutKnown(was, pending, posted[|old(posted)|..], seen);
          Same(was, k, Chosen(pick, |was|));
          KindsAppend(was[..k] + was[k + 1..], news);
          KindsAppend(was[..k], was[k + 1..]);
          KindsAppend(done, seen);
          assert Kinds(was)[..k] == Kinds(was[..k]) && Kinds(was)[k + 1..] == Kinds(was[k + 1..]);
        }
    }

    lemma Same(s: seq<Over>, i: nat, j: nat)
      requires i < |s| && j < |s| && s[i] == s[j] && NoDup(s)
      ensures i == j
    {
    }

    lemma NoneLeft()
      requires Valid()
      ensures NoDup(pending) && (over == null <==> pending == [])
    {
      hide Accounted;
    }
  }
}
