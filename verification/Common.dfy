/** Small vocabulary shared by every model: optional values, identifier strings, set listing. */
module Common {

  datatype Option<+T> = None | Some(value: T)

  function Lookup<K, V>(m: map<K, V>, k: K): Option<V> {
    if k in m then Some(m[k]) else None
  }

  /** The first index at or after `from` holding `c`, as Python's `str.find` with a start. */
  function Find(s: string, c: char, from: nat): (r: Option<nat>)
    ensures r.Some? ==> from <= r.value < |s| && s[r.value] == c && c !in s[from..r.value]
    ensures r.None? && from <= |s| ==> c !in s[from..]
    decreases |s| - from
  {
    if from >= |s| then None
    else if s[from] == c then Some(from)
    else
      var r := Find(s, c, from + 1);
      assert r.Some? ==> s[from..r.value] == [s[from]] + s[from + 1..r.value];
      assert s[from..] == [s[from]] + s[from + 1..];
      r
  }

  /** The first place of a character is the one found. */
  lemma {:induction false} FirstOf(s: string, c: char, from: nat, i: nat)
    requires from <= i < |s| && s[i] == c && c !in s[from..i]
    ensures Find(s, c, from) == Some(i)
    decreases i - from
  {
    if from < i {
      assert s[from..i] == [s[from]] + s[from + 1..i];
      FirstOf(s, c, from + 1, i);
    }
  }

  lemma {:induction false} NowhereFound(s: string, c: char, from: nat)
    requires from <= |s| && c !in s[from..]
    ensures Find(s, c, from) == None
    decreases |s| - from
  {
    if from < |s| {
      assert s[from..] == [s[from]] + s[from + 1..];
      NowhereFound(s, c, from + 1);
    }
  }

  /** The part after the first colon of a Matrix identifier; None where the source raises. */
  function DomainOf(id: string): Option<string> {
    match Find(id, ':', 0)
    case None => None
    case Some(i) => Some(id[i + 1..])
  }

  /** A server name is what follows the first colon, whatever comes before and after. */
  lemma DomainExactly(id: string, domain: string)
    ensures DomainOf(id) == Some(domain) <==> exists local :: ':' !in local && id == local + ":" + domain
  {
    if DomainOf(id) == Some(domain) {
      var i := Find(id, ':', 0).value;
      assert ':' !in id[..i] && id == id[..i] + ":" + domain;
    }
    if local :| ':' !in local && id == local + ":" + domain {
      assert id[..|local|] == local && id[|local| + 1..] == domain;
      FirstOf(id, ':', 0, |local|);
    }
  }

  /** What UserID.from_string parses: a sigil, then a localpart and a domain around a colon. */
  predicate ParsesAsUser(id: string) {
    |id| >= 1 && id[0] == '@' && ':' in id[1..]
  }

  /** Any listing of a finite set, standing for one iteration order of a Python set or dict. */
  method Listing<T(==)>(s: set<T>) returns (r: seq<T>)
    ensures forall x :: x in r <==> x in s
    ensures |r| == |s|
  {
    r := [];
    var rest := s;
    while rest != {}
      invariant rest <= s
      invariant forall x :: x in r <==> x in s - rest
      invariant |r| == |s| - |rest|
    {
      var x :| x in rest;
      r := r + [x];
      rest := rest - {x};
    }
  }
}
