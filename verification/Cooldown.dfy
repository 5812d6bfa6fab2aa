/** The per-user command cooldown: a Redis key that expires. Times are in milliseconds. */
module Cooldown {
  import opened Common
  import opened Texts

  datatype Request = Request(channel: string, user: nat, command: string, now: int)

  // --- The key ---------------------------------------------------------------------------------

  /** `createCooldownKey`. */
  function Key(r: Request): string {
    "channel:" + (r.channel + ":" + ("cd:" + (r.command + ":" + Decimal(r.user))))
  }

  predicate SameCommand(a: Request, b: Request) {
    a.channel == b.channel && a.user == b.user && a.command == b.command
  }

  lemma LastColon(x: string, a: string, y: string, b: string)
    requires ':' !in a && ':' !in b && x + ":" + a == y + ":" + b
    ensures x == y && a == b
  {
    var s, t := x + ":" + a, y + ":" + b;
    assert s[|x|] == ':' && t[|y|] == ':';
    assert forall i :: |x| < i < |s| ==> s[i] == a[i - |x| - 1];
    assert forall i :: |y| < i < |t| ==> t[i] == b[i - |y| - 1];
    assert |x| == |y|;
    assert x == s[..|x|] && a == s[|x| + 1..];
    assert y == t[..|y|] && b == t[|y| + 1..];
  }

  /** Distinct triples have distinct keys, whatever characters a command name contains. */
  lemma KeyInjective(a: Request, b: Request)
    requires Digits(a.channel) && Digits(b.channel)
    ensures Key(a) == Key(b) <==> SameCommand(a, b)
  {
    if Key(a) == Key(b) {
      var x, y := a.command + ":" + Decimal(a.user), b.command + ":" + Decimal(b.user);
      var v, w := ":cd:" + x, ":cd:" + y;
      assert Key(a)[8..] == a.channel + v && Key(b)[8..] == b.channel + w;
      CutOnce(a.channel, v, b.channel, w, c => c != ':');
      assert v[4..] == x && w[4..] == y;
      DecimalIsDigits(a.user);
      DecimalIsDigits(b.user);
      LastColon(a.command, Decimal(a.user), b.command, Decimal(b.user));
      DecimalInjective(a.user, b.user);
    }
  }

  // --- The gate --------------------------------------------------------------------------------

  /** Keys with their expiry time. */
  type Store = map<string, int>

  /** A command about to run: the key it is gated by, the time and the command's cooldown in seconds. */
  datatype Attempt = Attempt(key: string, now: int, seconds: int)

  predicate OnCooldown(store: Store, a: Attempt) {
    a.key in store && a.now < store[a.key]
  }

  function Expiry(a: Attempt): int {
    a.now + 1000 * a.seconds
  }

  /** SET without a time to live, then EXPIRE; a time to live that is not positive deletes the key. */
  function SetCooldown(store: Store, a: Attempt): Store {
    if a.seconds > 0 then store[a.key := Expiry(a)] else store - {a.key}
  }

  function Step(store: Store, a: Attempt): Store {
    if OnCooldown(store, a) then store else SetCooldown(store, a)
  }

  function AttemptOf(r: Request, cooldown: string -> int): Attempt {
    Attempt(Key(r), r.now, cooldown(r.command))
  }

  class Redis {
    var store: Store

    constructor ()
      ensures store == map[]
    {
      store := map[];
    }

    method CheckCommandCooldown(r: Request) returns (blocked: bool)
      ensures blocked <==> OnCooldown(store, Attempt(Key(r), r.now, 0))
      ensures blocked <==>
                var key := "channel:" + r.channel + ":cd:" + r.command + ":" + Decimal(r.user);
                key in store && r.now < store[key]
    {
      var key := Key(r);
      assert key == "channel:" + r.channel + ":cd:" + r.command + ":" + Decimal(r.user);
      blocked := key in store && r.now < store[key];
    }

    method SetCommandCooldown(r: Request, seconds: int, development: bool)
      modifies this
      ensures store == if development then old(store) else SetCooldown(old(store), Attempt(Key(r), r.now, seconds))
    {
      if !development {
        store := store[Key(r) := r.now + 1000 * seconds];
        if seconds <= 0 {
          store := store - {Key(r)};
        }
      }
    }

    /** The gate in `ExecuteCommand`. */
    method Admit(r: Request, cooldown: string -> int, development: bool) returns (accepted: bool)
      modifies this
      ensures accepted <==> !OnCooldown(old(store), AttemptOf(r, cooldown))
      ensures store == if development then old(store) else Step(old(store), AttemptOf(r, cooldown))
    {
      var blocked := CheckCommandCooldown(r);
      if blocked {
        return false;
      }
      SetCommandCooldown(r, cooldown(r.command), development);
      return true;
    }
  }

  function After(run: seq<Attempt>): Store {
    if run == [] then map[] else Step(After(Front(run)), Last(run))
  }

  /** Attempt `k` of the run got through the gate. */
  predicate Passed(run: seq<Attempt>, k: nat)
    requires k < |run|
  {
    !OnCooldown(After(run[..k]), run[k])
  }

  ghost predicate InOrder(run: seq<Attempt>) {
    forall j, k :: 0 <= j < k < |run| ==> run[j].now <= run[k].now
  }

  /** Each key of the store expires with an attempt that passed. */
  ghost predicate Sound(store: Store, run: seq<Attempt>, n: nat)
    requires n <= |run|
  {
    forall key :: key in store ==> exists j :: 0 <= j < n && Passed(run, j) && run[j].key == key && store[key] == Expiry(run[j])
  }

  /** An attempt that passed and whose cooldown still runs has a key that does not expire earlier. */
  ghost predicate Complete(store: Store, run: seq<Attempt>, n: nat)
    requires n <= |run|
  {
    forall j :: 0 <= j < n && Passed(run, j) ==>
      Expiry(run[j]) <= run[n - 1].now || (run[j].key in store && store[run[j].key] >= Expiry(run[j]))
  }

  lemma SoundStep(store: Store, run: seq<Attempt>, n: nat)
    requires n < |run| && store == After(run[..n]) && Sound(store, run, n)
    ensures Sound(Step(store, run[n]), run, n + 1)
  {
  }

  lemma CompleteStep(store: Store, run: seq<Attempt>, n: nat)
    requires n < |run| && InOrder(run) && store == After(run[..n]) && Complete(store, run, n)
    ensures Complete(Step(store, run[n]), run, n + 1)
  {
  }

  lemma {:induction false} StoreIsFaithful(run: seq<Attempt>, n: nat)
    requires n <= |run| && InOrder(run)
    ensures Sound(After(run[..n]), run, n) && Complete(After(run[..n]), run, n)
  {
    if n > 0 {
      StoreIsFaithful(run, n - 1);
      assert Front(run[..n]) == run[..n - 1] && Last(run[..n]) == run[n - 1];
      SoundStep(After(run[..n - 1]), run, n - 1);
      CompleteStep(After(run[..n - 1]), run, n - 1);
    }
  }

  /** On one key: an attempt passes exactly when the cooldown of every earlier one that passed is over. */
  lemma KeySpacing(run: seq<Attempt>, k: nat)
    requires k < |run| && InOrder(run)
    ensures Passed(run, k)
       <==> forall j :: 0 <= j < k && Passed(run, j) && run[j].key == run[k].key ==> run[k].now >= Expiry(run[j])
  {
    StoreIsFaithful(run, k);
    assert k > 0 ==> run[k - 1].now <= run[k].now;
  }

  function Attempts(rs: seq<Request>, cooldown: string -> int): (run: seq<Attempt>)
    ensures |run| == |rs| && forall k :: 0 <= k < |rs| ==> run[k] == AttemptOf(rs[k], cooldown)
  {
    seq(|rs|, k requires 0 <= k < |rs| => AttemptOf(rs[k], cooldown))
  }

  /** Request `k` of the run executed its command. */
  predicate Accepted(rs: seq<Request>, k: nat, cooldown: string -> int)
    requires k < |rs|
  {
    Passed(Attempts(rs, cooldown), k)
  }

  /** A request gets through exactly when every accepted request of the same user for the same command in the same
      channel lies at least the command's cooldown back. No other request matters. */
  lemma CooldownSpacing(rs: seq<Request>, k: nat, cooldown: string -> int)
    requires k < |rs| && forall i, j :: 0 <= i < j < |rs| ==> rs[i].now <= rs[j].now
    requires forall j :: 0 <= j < |rs| ==> Digits(rs[j].channel)
    ensures Accepted(rs, k, cooldown)
       <==> forall j :: 0 <= j < k && Accepted(rs, j, cooldown) && SameCommand(rs[j], rs[k]) ==>
              rs[k].now - rs[j].now >= 1000 * cooldown(rs[k].command)
  {
    var run := Attempts(rs, cooldown);
    KeySpacing(run, k);
    forall j | 0 <= j < k
      ensures run[j].key == run[k].key <==> SameCommand(rs[j], rs[k])
      ensures SameCommand(rs[j], rs[k]) ==> Expiry(run[j]) == rs[j].now + 1000 * cooldown(rs[k].command)
    {
      KeyInjective(rs[j], rs[k]);
    }
  }
}
