/** When the idempotency key of a worker request determines what the request is about
    (apps/web/src/worker_gateway.rs:1133-1154). */
module DedupeKeys {
  import opened Wrappers
  import opened KeyOrder
  import opened WorkerGateway
  import opened Queue

  predicate NoColon(s: string) {
    forall i :: 0 <= i < |s| ==> s[i] != ':'
  }

  /** The first colon ends the first field. */
  lemma FieldEnds(x: string, y: string, r: string, s: string)
    requires NoColon(x) && NoColon(y) && x + ":" + r == y + ":" + s
    ensures x == y && r == s
  {
    var a, b := x + ":" + r, y + ":" + s;
    assert a[|x|] == ':' && b[|y|] == ':';
    assert forall i :: 0 <= i < |x| ==> a[i] == x[i];
    assert forall i :: 0 <= i < |y| ==> b[i] == y[i];
    assert |x| == |y|;
    assert x == a[..|x|] == b[..|y|] == y;
    assert r == a[|x|+1..] == b[|y|+1..] == s;
  }

  predicate ColonFree(a: Arguments) {
    NoColon(Text(a.taskId)) && NoColon(Text(a.stepId)) && NoColon(Text(a.assignmentId)) && NoColon(Text(a.workerId))
    && NoColon(Text(a.sessionId)) && NoColon(Text(a.claimId))
  }

  /** The scope of a key; a missing field counts as the empty one. */
  predicate SameScope(a: Arguments, b: Arguments) {
    && Text(a.taskId) == Text(b.taskId) && Text(a.stepId) == Text(b.stepId)
    && Text(a.assignmentId) == Text(b.assignmentId)
    && Text(a.workerId) == Text(b.workerId) && Text(a.sessionId) == Text(b.sessionId)
    && Text(a.claimId) == Text(b.claimId)
    && a.key == b.key
  }

  lemma TailsDecide(a: Arguments, b: Arguments)
    requires a.key.Some? && b.key.Some? && ColonFree(a) && ColonFree(b) && KeyTail(a) == KeyTail(b)
    ensures SameScope(a, b)
  {
    hide NoColon;
    var a6, b6 := a.key.value, b.key.value;
    var a5, b5 := Text(a.claimId) + ":" + a6, Text(b.claimId) + ":" + b6;
    var a4, b4 := Text(a.sessionId) + ":" + a5, Text(b.sessionId) + ":" + b5;
    var a3, b3 := Text(a.workerId) + ":" + a4, Text(b.workerId) + ":" + b4;
    var a2, b2 := Text(a.assignmentId) + ":" + a3, Text(b.assignmentId) + ":" + b3;
    var a1, b1 := Text(a.stepId) + ":" + a2, Text(b.stepId) + ":" + b2;
    FieldEnds(Text(a.taskId), Text(b.taskId), a1, b1);
    FieldEnds(Text(a.stepId), Text(b.stepId), a2, b2);
    FieldEnds(Text(a.assignmentId), Text(b.assignmentId), a3, b3);
    FieldEnds(Text(a.workerId), Text(b.workerId), a4, b4);
    FieldEnds(Text(a.sessionId), Text(b.sessionId), a5, b5);
    FieldEnds(Text(a.claimId), Text(b.claimId), a6, b6);
  }

  // ----- the key as a list of fields

  function FieldsOf(a: Arguments): seq<string> {
    [Text(a.taskId), Text(a.stepId), Text(a.assignmentId), Text(a.workerId), Text(a.sessionId), Text(a.claimId)]
  }

  function WithFields(a: Arguments, f: seq<string>): Arguments
    requires |f| == 6
  {
    a.(taskId := Some(f[0]), stepId := Some(f[1]), assignmentId := Some(f[2]),
       workerId := Some(f[3]), sessionId := Some(f[4]), claimId := Some(f[5]))
  }

  function Joined(f: seq<string>, last: string): string {
    if f == [] then last else f[0] + ":" + Joined(f[1..], last)
  }

  lemma TailIsJoined(a: Arguments)
    requires a.key.Some?
    ensures KeyTail(a) == Joined(FieldsOf(a), a.key.value)
  {
    var k := a.key.value;
    var f := FieldsOf(a);
    assert f[5..] == [f[5]] && f[4..] == [f[4]] + f[5..] && f[3..] == [f[3]] + f[4..] && f[2..] == [f[2]] + f[3..];
    assert f[1..] == [f[1]] + f[2..];
    assert Joined(f[5..], k) == f[5] + ":" + k;
    assert f[4..][1..] == f[5..] && Joined(f[4..], k) == f[4] + ":" + Joined(f[5..], k);
    assert f[3..][1..] == f[4..] && Joined(f[3..], k) == f[3] + ":" + Joined(f[4..], k);
    assert f[2..][1..] == f[3..] && Joined(f[2..], k) == f[2] + ":" + Joined(f[3..], k);
    assert f[1..][1..] == f[2..] && Joined(f[1..], k) == f[1] + ":" + Joined(f[2..], k);
  }

  /** A colon inside a field and the one that ends it change places: what stands between moves to the next field. */
  lemma {:induction false} ShiftedRight(f: seq<string>, i: nat, p: string, r: string, last: string)
    requires i + 1 < |f| && f[i] == p + ":" + r
    ensures Joined(f[i := p][i+1 := r + ":" + f[i+1]], last) == Joined(f, last)
  {
    var g := f[i := p][i+1 := r + ":" + f[i+1]];
    if i == 0 {
      var t := Joined(f[2..], last);
      assert f[1..][1..] == f[2..] && g[1..][1..] == f[2..];
      assert Joined(f, last) == (p + ":" + r) + ":" + (f[1] + ":" + t);
      assert Joined(g, last) == p + ":" + ((r + ":" + f[1]) + ":" + t);
      assert (p + ":" + r) + ":" + (f[1] + ":" + t) == p + ":" + ((r + ":" + f[1]) + ":" + t);
    } else {
      ShiftedRight(f[1..], i - 1, p, r, last);
      assert f[1..][i-1 := p][i := r + ":" + f[1..][i]] == g[1..];
    }
  }

  // ----- two requests with one key

  /** A different scope under the same key, in a request that the tool accepts with a key of its own. */
  predicate Collides(capability: string, tool: string, a: Arguments, b: Arguments) {
    !SameScope(a, b) && b.key.Some? && DedupeKey(capability, tool, a) == DedupeKey(capability, tool, b)
  }

  lemma SplitAtColon(s: string) returns (p: string, r: string)
    requires !NoColon(s)
    ensures s == p + ":" + r
  {
    var i :| 0 <= i < |s| && s[i] == ':';
    p, r := s[..i], s[i+1..];
  }

  lemma ScopeIsFields(a: Arguments, b: Arguments)
    ensures SameScope(a, b) ==> FieldsOf(a) == FieldsOf(b)
  {}

  lemma OtherFields(capability: string, tool: string, a: Arguments, f: seq<string>)
    requires DedupeKey(capability, tool, a).Some? && |f| == 6 && f != FieldsOf(a)
    requires Joined(f, a.key.value) == Joined(FieldsOf(a), a.key.value)
    ensures Collides(capability, tool, a, WithFields(a, f)) && WithFields(a, f).key == a.key
  {
    hide KeyTail, Joined;
    var b := WithFields(a, f);
    assert FieldsOf(b) == f;
    TailIsJoined(a); TailIsJoined(b);
    ScopeIsFields(a, b);
  }

  lemma ColonField(a: Arguments) returns (i: nat)
    requires !ColonFree(a)
    ensures i < 6 && !NoColon(FieldsOf(a)[i])
  {
    hide NoColon;
    var f := FieldsOf(a);
    i := if !NoColon(f[0]) then 0 else if !NoColon(f[1]) then 1 else if !NoColon(f[2]) then 2
         else if !NoColon(f[3]) then 3 else if !NoColon(f[4]) then 4 else 5;
  }

  /** Whichever field has a colon, another request with the same key string has a different scope and the same key. */
  lemma ColonsCollide(capability: string, tool: string, a: Arguments) returns (b: Arguments)
    requires DedupeKey(capability, tool, a).Some? && !ColonFree(a)
    ensures b.key == a.key && Collides(capability, tool, a, b)
  {
    hide Joined, Collides, KeyTail, DedupeKey, NoColon;
    var f := FieldsOf(a);
    var i := ColonField(a);
    var p, r := SplitAtColon(f[i]);
    var g: seq<string>;
    if i < 5 {
      g := f[i := p][i+1 := r + ":" + f[i+1]];
      KeyPresent(capability, tool, a);
      ShiftedRight(f, i, p, r, a.key.value);
    } else {
      g := f[4 := f[4] + ":" + p][5 := r];
      assert g[4 := f[4]][5 := p + ":" + g[5]] == f;
      KeyPresent(capability, tool, a);
      ShiftedRight(g, 4, f[4], p, a.key.value);
    }
    assert |g[i]| < |f[i]| by { assert |f[i]| == |p| + 1 + |r|; }
    OtherFields(capability, tool, a, g);
    b := WithFields(a, g);
  }

  lemma KeyPresent(capability: string, tool: string, a: Arguments)
    requires DedupeKey(capability, tool, a).Some?
    ensures a.key.Some? && a.key.value != ""
  {}

  // ----- counting colons

  function Colons(s: string): nat {
    if s == "" then 0 else (if s[0] == ':' then 1 else 0) + Colons(s[1..])
  }

  lemma {:induction false} ColonsAdd(s: string, t: string)
    ensures Colons(s + t) == Colons(s) + Colons(t)
  {
    if s == "" { assert s + t == t; }
    else {
      assert (s + t)[1..] == s[1..] + t;
      ColonsAdd(s[1..], t);
    }
  }

  lemma {:induction false} ColonsNone(s: string)
    ensures Colons(s) == 0 <==> NoColon(s)
  {
    if s != "" {
      ColonsNone(s[1..]);
      assert s == [s[0]] + s[1..];
      if NoColon(s) { assert forall i :: 0 <= i < |s[1..]| ==> s[1..][i] == s[i+1]; }
      if Colons(s) == 0 { assert forall i :: 1 <= i < |s| ==> s[i] == s[1..][i-1]; }
    }
  }

  function ColonsIn(f: seq<string>): nat {
    if f == [] then 0 else Colons(f[0]) + ColonsIn(f[1..])
  }

  lemma {:induction false} ColonsJoined(f: seq<string>, last: string)
    ensures Colons(Joined(f, last)) == |f| + ColonsIn(f) + Colons(last)
  {
    if f != [] {
      ColonsJoined(f[1..], last);
      ColonsAdd(f[0] + ":", Joined(f[1..], last));
      ColonsAdd(f[0], ":");
      assert Colons(":") == 1;
    }
  }

  lemma {:induction false} ColonsInNone(f: seq<string>)
    ensures ColonsIn(f) == 0 <==> forall i :: 0 <= i < |f| ==> NoColon(f[i])
  {
    hide NoColon;
    if f != [] {
      ColonsInNone(f[1..]);
      ColonsNone(f[0]);
      assert forall i :: 1 <= i < |f| ==> f[i] == f[1..][i-1];
      assert forall i :: 0 <= i < |f[1..]| ==> f[1..][i] == f[i+1];
    }
  }

  lemma FieldsColonFree(a: Arguments)
    ensures ColonFree(a) <==> ColonsIn(FieldsOf(a)) == 0
  {
    hide NoColon;
    var f := FieldsOf(a);
    ColonsInNone(f);
    assert ColonFree(a)
           <==> NoColon(f[0]) && NoColon(f[1]) && NoColon(f[2]) && NoColon(f[3]) && NoColon(f[4]) && NoColon(f[5]);
  }

  lemma TailColons(a: Arguments)
    requires a.key.Some?
    ensures Colons(KeyTail(a)) == 6 + ColonsIn(FieldsOf(a)) + Colons(a.key.value)
  {
    TailIsJoined(a);
    ColonsJoined(FieldsOf(a), a.key.value);
  }

  lemma SameTails(capability: string, tool: string, a: Arguments, b: Arguments)
    requires DedupeKey(capability, tool, a).Some? && DedupeKey(capability, tool, a) == DedupeKey(capability, tool, b)
    ensures a.key.Some? && b.key.Some? && KeyTail(a) == KeyTail(b)
  {
    hide KeyTail;
    CancelFront(capability + ":" + tool + ":", KeyTail(a), KeyTail(b));
  }

  lemma SameKeySameScope(capability: string, tool: string, a: Arguments, b: Arguments)
    requires DedupeKey(capability, tool, a).Some? && ColonFree(a) && b.key == a.key
    requires DedupeKey(capability, tool, a) == DedupeKey(capability, tool, b)
    ensures SameScope(a, b)
  {
    hide KeyTail, DedupeKey, ColonFree, SameScope;
    SameTails(capability, tool, a, b);
    TailColons(a); TailColons(b);
    FieldsColonFree(a); FieldsColonFree(b);
    TailsDecide(a, b);
  }

  /** Among the requests that bring the same key string, the key determines the scope if and only if no field of the
      request contains a colon. */
  lemma KeyTellsScopeExactly(capability: string, tool: string, a: Arguments)
    requires DedupeKey(capability, tool, a).Some?
    ensures (exists b: Arguments :: b.key == a.key && Collides(capability, tool, a, b)) <==> !ColonFree(a)
  {
    hide KeyTail, DedupeKey, ColonFree, SameScope;
    if ColonFree(a) {
      forall b: Arguments | b.key == a.key && Collides(capability, tool, a, b)
        ensures false { SameKeySameScope(capability, tool, a, b); }
    } else {
      var b := ColonsCollide(capability, tool, a);
    }
  }

  // ----- requests that bring a key string of their own

  predicate Trimmed(s: string, white: set<char>) {
    s != "" ==> s[0] !in white && s[|s|-1] !in white
  }

  /** A colon that leaves a trimmed nonempty key behind it. */
  predicate Splittable(key: string, i: nat, white: set<char>) {
    i + 1 < |key| && key[i] == ':' && key[i+1] !in white
  }

  /** Everything before the key string, its last colon included. */
  function Front(f: seq<string>): string {
    Joined(f, "")
  }

  lemma {:induction false} JoinedFront(f: seq<string>, last: string)
    ensures Joined(f, last) == Front(f) + last
  {
    if f != [] {
      JoinedFront(f[1..], last);
      assert f[0] + ":" + (Front(f[1..]) + last) == (f[0] + ":" + Front(f[1..])) + last;
    }
  }

  lemma {:induction false} FrontEnds(f: seq<string>)
    requires f != []
    ensures Front(f) != "" && Front(f)[|Front(f)|-1] == ':'
  {
    if |f| == 1 { assert f[1..] == [] && Joined(f[1..], "") == ""; }
    else { FrontEnds(f[1..]); }
  }

  lemma {:induction false} LastTakes(f: seq<string>, p: string, r: string)
    requires f != []
    ensures Joined(f[|f|-1 := f[|f|-1] + ":" + p], r) == Joined(f, p + ":" + r)
  {
    var n := |f| - 1;
    var g := f[n := f[n] + ":" + p];
    if n == 0 {
      assert (f[0] + ":" + p) + ":" + r == f[0] + ":" + (p + ":" + r);
      assert f[1..] == [] && g[1..] == [];
    } else {
      LastTakes(f[1..], p, r);
      assert f[1..][n-1 := f[1..][n-1] + ":" + p] == g[1..];
    }
  }

  /** A colon of the key string handed to the claim, which stands before it. */
  lemma KeysCollide(capability: string, tool: string, a: Arguments, i: nat, white: set<char>) returns (b: Arguments)
    requires DedupeKey(capability, tool, a).Some? && Trimmed(a.key.value, white) && Splittable(a.key.value, i, white)
    ensures Rival(capability, tool, a, b, white)
  {
    hide Joined, KeyTail;
    var key, f := a.key.value, FieldsOf(a);
    var g := f[5 := f[5] + ":" + key[..i]];
    b := WithFields(a, g).(key := Some(key[i+1..]));
    assert FieldsOf(b) == g;
    TailIsJoined(a); TailIsJoined(b);
    assert key == key[..i] + ":" + key[i+1..];
    LastTakes(f, key[..i], key[i+1..]);
    assert |g[5]| != |f[5]|;
  }

  /** A request that collides and brings a trimmed key string. */
  predicate Rival(capability: string, tool: string, a: Arguments, b: Arguments, white: set<char>) {
    Collides(capability, tool, a, b) && Trimmed(b.key.value, white)
  }

  /** Equal texts cut in front of two nonempty ends, each cut behind a colon. */
  lemma CutElsewhere(x: string, key: string, y: string, other: string, white: set<char>)
    requires x + key == y + other && other != "" && other[0] !in white && y != "" && y[|y|-1] == ':' && |other| < |key|
    ensures Splittable(key, |key| - |other| - 1, white)
  {
    var t, i := x + key, |key| - |other| - 1;
    assert key[i] == t[|x| + i] == (y + other)[|y| - 1] == ':';
    assert key[i+1] == t[|x| + i + 1] == (y + other)[|y|] == other[0];
  }

  lemma ShorterFront(x: string, key: string, y: string, other: string)
    requires x + key == y + other && x != "" && x[|x|-1] == ':' && |other| > |key|
    ensures Colons(x) > Colons(y)
  {
    var z := x[|y|..];
    assert x == (x + key)[..|x|] && y == (y + other)[..|y|] == x[..|y|];
    assert x == y + z && z[|z|-1] == ':';
    ColonsAdd(y, z);
    ColonsNone(z);
  }

  lemma NoRival(capability: string, tool: string, a: Arguments, b: Arguments, white: set<char>)
    requires DedupeKey(capability, tool, a).Some? && Trimmed(a.key.value, white) && ColonFree(a)
    requires Rival(capability, tool, a, b, white)
    ensures exists i :: Splittable(a.key.value, i, white)
  {
    hide KeyTail, ColonFree, Splittable, Joined, SameScope;
    SameTails(capability, tool, a, b);
    KeyPresent(capability, tool, b);
    var x, y, key, other := Front(FieldsOf(a)), Front(FieldsOf(b)), a.key.value, b.key.value;
    TailIsJoined(a); TailIsJoined(b);
    JoinedFront(FieldsOf(a), key); JoinedFront(FieldsOf(b), other);
    FrontEnds(FieldsOf(a)); FrontEnds(FieldsOf(b));
    if |other| < |key| {
      CutElsewhere(x, key, y, other, white);
    } else if |other| > |key| {
      ShorterFront(x, key, y, other);
      ColonsJoined(FieldsOf(a), ""); ColonsJoined(FieldsOf(b), "");
      FieldsColonFree(a);
    } else {
      assert key == (x + key)[|x|..] == (y + other)[|y|..] == other;
      SameKeySameScope(capability, tool, a, b);
    }
  }

  /** Among all requests, whatever key string they bring: the key determines the scope, key string included, if and only
      if no field contains a colon and none in the key string leaves a trimmed rest; `white` is what trimming
      removes. */
  lemma KeyTellsAllExactly(capability: string, tool: string, a: Arguments, white: set<char>)
    requires DedupeKey(capability, tool, a).Some? && Trimmed(a.key.value, white)
    ensures (exists b :: Rival(capability, tool, a, b, white))
            <==> !ColonFree(a) || exists i :: Splittable(a.key.value, i, white)
  {
    hide KeyTail, DedupeKey, ColonFree, SameScope, Splittable, Trimmed, Collides;
    KeyPresent(capability, tool, a);
    if !ColonFree(a) {
      var b := ColonsCollide(capability, tool, a);
      assert Rival(capability, tool, a, b, white);
    } else if i: nat :| Splittable(a.key.value, i, white) {
      var b := KeysCollide(capability, tool, a, i, white);
    } else {
      forall b | Rival(capability, tool, a, b, white) ensures false { NoRival(capability, tool, a, b, white); }
    }
  }

  // ----- what becomes of the second request

  /** While the first of two colliding requests is stored, the second is refused as a reuse of its key. */
  lemma RivalIsRefused(q: Requests, c: Call, node: Id, now: int, broken: set<Id>, id: Id)
    requires QueueOk(q, node) && c.Submit? && KnownTool(c.capability, c.tool) && Failing(q, now, broken) == {}
    requires var s := Swept(q, now, broken);
             id in s && s[id].capability == c.capability && s[id].tool == c.tool
             && s[id].dedupeKey.Some? && Collides(c.capability, c.tool, s[id].arguments, c.arguments)
    ensures Handle(q, c, node, now, broken) == After(Swept(q, now, broken), Refused(KeyReused))
  {
    hide QueueOk, KnownTool, SweptOf, Reached, DedupeKey, KeyTail;
    SweepOk(q, node, now, Reached(q, now, broken));
    var s := Swept(q, now, broken);
    HolderIsKnown(s, node, id);
    var holders := Holders(s, DedupeKey(c.capability, c.tool, c.arguments));
    assert id in holders;
    FirstThere(holders);
    OneHolder(s, node, id, holders, s[id].dedupeKey);
  }

  lemma OneHolder(q: Requests, node: Id, id: Id, holders: set<Id>, key: Option<string>)
    requires QueueOk(q, node) && id in holders && holders == Holders(q, key) && key.Some?
    ensures forall k :: First(holders, k) ==> k == id
  {
    hide RecordOk;
  }
}
