/**
 * ClientIP and clientIPFromXFF of internal/proxy/proxy.go. `valid` and `trusted` stand for net.ParseIP and the
 * trusted_proxies networks; the empty string is no address.
 */
module ForwardedFor {
  import opened Common
  import opened Parts

  function Entries(xff: string): seq<string> {
    TrimAll(Split(xff, ','))
  }

  function TrimAll(parts: seq<string>): (r: seq<string>)
    ensures |r| == |parts| && forall i :: 0 <= i < |parts| ==> r[i] == TrimSpace(parts[i])
  {
    seq(|parts|, i requires 0 <= i < |parts| => TrimSpace(parts[i]))
  }

  lemma EntriesPrepend(more: string, xff: string)
    ensures Entries(more + "," + xff) == Entries(more) + Entries(xff)
  {
    SplitJoins(more, xff, ',');
  }

  predicate Foreign(e: string, valid: string -> bool, trusted: string -> bool) {
    valid(e) && !trusted(e)
  }

  predicate LastForeign(es: seq<string>, k: nat, valid: string -> bool, trusted: string -> bool) {
    k < |es| && Foreign(es[k], valid, trusted) && forall j :: k < j < |es| ==> !Foreign(es[j], valid, trusted)
  }

  predicate FirstValid(es: seq<string>, k: nat, valid: string -> bool) {
    k < |es| && valid(es[k]) && forall j :: 0 <= j < k ==> !valid(es[j])
  }

  predicate SomeForeign(es: seq<string>, valid: string -> bool, trusted: string -> bool) {
    exists i :: 0 <= i < |es| && Foreign(es[i], valid, trusted)
  }

  predicate SomeValid(es: seq<string>, valid: string -> bool) {
    exists i :: 0 <= i < |es| && valid(es[i])
  }

  /** The rightmost valid untrusted entry; without one the leftmost valid entry; without any nothing. */
  ghost predicate IsClient(es: seq<string>, valid: string -> bool, trusted: string -> bool, ip: string) {
    if SomeForeign(es, valid, trusted) then exists k: nat :: LastForeign(es, k, valid, trusted) && ip == es[k]
    else if SomeValid(es, valid) then exists k: nat :: FirstValid(es, k, valid) && ip == es[k]
    else ip == ""
  }

  lemma ClientIsUnique(es: seq<string>, valid: string -> bool, trusted: string -> bool, a: string, b: string)
    requires IsClient(es, valid, trusted, a) && IsClient(es, valid, trusted, b)
    ensures a == b
  {
  }

  /** In so many words: an entry that is valid and not trusted, with nothing of the kind to its right, is the client. */
  lemma RightmostUntrusted(
    front: seq<string>, ip: string, back: seq<string>, valid: string -> bool, trusted: string -> bool, got: string)
    requires valid(ip) && !trusted(ip) && forall e :: e in back ==> !valid(e) || trusted(e)
    ensures IsClient(front + [ip] + back, valid, trusted, got) <==> got == ip
  {
    var es, k := front + [ip] + back, |front|;
    assert es[k] == ip;
    assert forall j :: k < j < |es| ==> es[j] in back;
    assert LastForeign(es, k, valid, trusted);
    if IsClient(es, valid, trusted, got) {
      ClientIsUnique(es, valid, trusted, got, ip);
    }
  }

  /** If every valid entry is trusted it is the leftmost valid one. */
  lemma LeftmostTrusted(
    front: seq<string>, ip: string, back: seq<string>, valid: string -> bool, trusted: string -> bool, got: string)
    requires valid(ip) && trusted(ip) && (forall e :: e in front ==> !valid(e))
    requires forall e :: e in back && valid(e) ==> trusted(e)
    ensures IsClient(front + [ip] + back, valid, trusted, got) <==> got == ip
  {
    var es, k := front + [ip] + back, |front|;
    assert es[k] == ip;
    assert forall j :: 0 <= j < k ==> es[j] in front;
    assert forall j :: k < j < |es| ==> es[j] in back;
    assert FirstValid(es, k, valid);
    assert !SomeForeign(es, valid, trusted);
    if IsClient(es, valid, trusted, got) {
      ClientIsUnique(es, valid, trusted, got, ip);
    }
  }

  /** An entry is what stands between the spaces around it; a comma ends it. */
  lemma EntryReads(a: string, ip: string, b: string)
    requires AllCut(a, IsSpace) && AllCut(b, IsSpace) && Trimmed(ip, IsSpace) && ',' !in ip
    ensures Entries(a + ip + b) == [ip]
  {
    assert ',' !in a + ip + b;
    SplitWhole(a + ip + b, ',');
    TrimAround(a, ip, b, IsSpace);
  }

  /** The final `return firstValid` is reached only when no entry is valid, and returns the empty string. */
  method ClientIPFromXFF(xff: string, valid: string -> bool, trusted: string -> bool) returns (ip: string)
    requires !valid("")
    ensures IsClient(Entries(xff), valid, trusted, ip)
    ensures ip == "" <==> !SomeValid(Entries(xff), valid)
  {
    var parts := Split(xff, ',');
    var firstValid := "";
    ghost var es := Entries(xff);
    for i := |parts| downto 0
      invariant forall k :: i <= k < |es| ==> !Foreign(es[k], valid, trusted)
      invariant firstValid == "" <==> forall k :: i <= k < |es| ==> !valid(es[k])
    {
      ip := TrimSpace(parts[i]);
      if !valid(ip) {
        continue;
      }
      if firstValid == "" {
        firstValid := ip;
      }
      if !trusted(ip) {
        assert ip == es[i] && LastForeign(es, i, valid, trusted);
        return ip;
      }
    }
    assert !SomeForeign(es, valid, trusted);
    for i := 0 to |parts|
      invariant forall k :: 0 <= k < i ==> !valid(es[k])
    {
      ip := TrimSpace(parts[i]);
      if valid(ip) {
        assert ip == es[i] && FirstValid(es, i, valid);
        return ip;
      }
    }
    assert firstValid == "" && !SomeValid(es, valid);
    return firstValid;
  }

  /** What a client puts in front cannot change the answer once some entry is valid and untrusted. */
  lemma PrependingChangesNothing(more: string, xff: string, valid: string -> bool, trusted: string -> bool, ip: string)
    requires SomeForeign(Entries(xff), valid, trusted)
    ensures IsClient(Entries(more + "," + xff), valid, trusted, ip) <==> IsClient(Entries(xff), valid, trusted, ip)
  {
    EntriesPrepend(more, xff);
    RightmostWins(Entries(more), Entries(xff), valid, trusted, ip);
  }

  lemma LastForeignShifts(front: seq<string>, es: seq<string>, k: nat, valid: string -> bool, trusted: string -> bool)
    ensures LastForeign(es, k, valid, trusted) ==> LastForeign(front + es, |front| + k, valid, trusted)
    ensures SomeForeign(es, valid, trusted) && LastForeign(front + es, k, valid, trusted) ==>
              k >= |front| && LastForeign(es, k - |front|, valid, trusted)
  {
    var n, whole := |front|, front + es;
    assert forall j :: 0 <= j < |es| ==> whole[n + j] == es[j];
    if SomeForeign(es, valid, trusted) && LastForeign(whole, k, valid, trusted) {
      var i :| 0 <= i < |es| && Foreign(es[i], valid, trusted);
      assert Foreign(whole[n + i], valid, trusted);
      forall j | k - n < j < |es| ensures !Foreign(es[j], valid, trusted) {
        assert whole[n + j] == es[j];
      }
    }
  }

  lemma RightmostWins(front: seq<string>, es: seq<string>, valid: string -> bool, trusted: string -> bool, ip: string)
    requires SomeForeign(es, valid, trusted)
    ensures SomeForeign(front + es, valid, trusted)
    ensures IsClient(front + es, valid, trusted, ip) <==> IsClient(es, valid, trusted, ip)
  {
    var i :| 0 <= i < |es| && Foreign(es[i], valid, trusted);
    assert (front + es)[|front| + i] == es[i];
    if IsClient(es, valid, trusted, ip) {
      var k: nat :| LastForeign(es, k, valid, trusted) && ip == es[k];
      LastForeignShifts(front, es, k, valid, trusted);
    }
    if IsClient(front + es, valid, trusted, ip) {
      var k: nat :| LastForeign(front + es, k, valid, trusted) && ip == (front + es)[k];
      LastForeignShifts(front, es, k, valid, trusted);
    }
  }

  /** Without such an entry the client's own address, put in front, is believed. */
  lemma PrependingDecidesOtherwise(a: string, xff: string, valid: string -> bool, trusted: string -> bool, ip: string)
    requires valid(a) && ',' !in a && Trimmed(a, IsSpace)
    requires !SomeForeign(Entries(xff), valid, trusted)
    ensures IsClient(Entries(a + "," + xff), valid, trusted, ip) <==> ip == a
  {
    EntriesPrepend(a, xff);
    SplitWhole(a, ',');
    TrimSpec(a, IsSpace);
    var es := [a] + Entries(xff);
    assert Entries(a) == [a];
    assert Entries(a + "," + xff) == es && es[0] == a;
    assert forall j :: 1 <= j < |es| ==> es[j] == Entries(xff)[j - 1];
    if IsClient(es, valid, trusted, ip) && Foreign(a, valid, trusted) {
      assert LastForeign(es, 0, valid, trusted);
    }
    if ip == a {
      assert ip == es[0] && FirstValid(es, 0, valid);
    }
  }

  /** So a client cannot move the answer by a longer header if and only if some entry is valid and untrusted. */
  lemma PrependingIsExact(xff: string, a: string, b: string, valid: string -> bool, trusted: string -> bool)
    requires a != b && valid(a) && valid(b) && ',' !in a && ',' !in b && Trimmed(a, IsSpace) && Trimmed(b, IsSpace)
    ensures SomeForeign(Entries(xff), valid, trusted) <==>
      forall more, ip ::
        IsClient(Entries(more + "," + xff), valid, trusted, ip) <==> IsClient(Entries(xff), valid, trusted, ip)
  {
    if SomeForeign(Entries(xff), valid, trusted) {
      forall more, ip
        ensures IsClient(Entries(more + "," + xff), valid, trusted, ip) <==> IsClient(Entries(xff), valid, trusted, ip)
      {
        PrependingChangesNothing(more, xff, valid, trusted, ip);
      }
    } else {
      PrependingDecidesOtherwise(a, xff, valid, trusted, a);
      PrependingDecidesOtherwise(b, xff, valid, trusted, b);
      if IsClient(Entries(xff), valid, trusted, a) && IsClient(Entries(xff), valid, trusted, b) {
        ClientIsUnique(Entries(xff), valid, trusted, a, b);
      }
    }
  }

  lemma ForeignIsValid(es: seq<string>, valid: string -> bool, trusted: string -> bool)
    requires SomeForeign(es, valid, trusted)
    ensures SomeValid(es, valid)
  {
  }

  // ---- ClientIP ----

  ghost predicate IsClientIP(
    remote: string, xff: string, realIP: string, valid: string -> bool, trusted: string -> bool, ip: string)
  {
    if remote == "" || !trusted(remote) then ip == remote
    else if xff != "" && SomeValid(Entries(xff), valid)
    then IsClient(Entries(xff), valid, trusted, ip)
    else ip == if valid(TrimSpace(realIP)) then TrimSpace(realIP) else remote
  }

  method ClientIP(remote: string, xff: string, realIP: string, valid: string -> bool, trusted: string -> bool)
    returns (ip: string)
    requires !valid("")
    ensures IsClientIP(remote, xff, realIP, valid, trusted, ip)
  {
    if remote == "" || !trusted(remote) {
      return remote;
    }
    if xff != "" {
      ip := ClientIPFromXFF(xff, valid, trusted);
      if ip != "" {
        return ip;
      }
    }
    var xri := TrimSpace(realIP);
    if xri != "" && valid(xri) {
      return xri;
    }
    ip := remote;
  }

  /** The whole answer is out of the client's hands: neither an untrusted peer nor a longer header moves it. */
  lemma {:induction false} ClientIPUnspoofable(
    remote: string, xff: string, more: string, realIP: string, realIP': string,
    valid: string -> bool, trusted: string -> bool, ip: string)
    requires !trusted(remote) || SomeForeign(Entries(xff), valid, trusted)
    requires xff != ""
    ensures IsClientIP(remote, more + "," + xff, realIP', valid, trusted, ip) <==>
            IsClientIP(remote, xff, realIP, valid, trusted, ip)
  {
    if trusted(remote) {
      PrependingChangesNothing(more, xff, valid, trusted, ip);
      EntriesPrepend(more, xff);
      RightmostWins(Entries(more), Entries(xff), valid, trusted, ip);
      ForeignIsValid(Entries(xff), valid, trusted);
      ForeignIsValid(Entries(more + "," + xff), valid, trusted);
    }
  }
}
