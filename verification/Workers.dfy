/**
 * The worker requests of the container start-up script: a list of strings such as
 * `event_persister:2` or `writers=typing+receipts`, turned into named and numbered workers.
 */
module Workers {
  import opened Common

  /** What the parser takes from Python: which characters are blank, `int`, and the order of `sorted`. */
  datatype Platform = Platform(blank: char -> bool, toInt: string -> Option<int>, sorted: set<string> -> seq<string>)

  /** `sorted` lists the elements of its set. */
  ghost predicate Lists(p: Platform) {
    forall s: set<string>, x: string :: x in p.sorted(s) <==> x in s
  }

  const KNOWN: set<string> := {
    "pusher", "user_dir", "media_repository", "appservice", "federation_sender", "synchrotron", "client_reader",
    "federation_reader", "federation_inbound", "event_persister", "background_worker", "event_creator",
    "account_data", "presence", "receipts", "to_device", "device_lists", "typing", "push_rules", "thread_subscriptions"
  }

  predicate Shardable(workerType: string) {
    workerType !in {"background_worker", "account_data", "presence", "receipts", "typing", "to_device"}
  }

  /** The types there are. */
  lemma KnownTypes(t: string)
    ensures t in KNOWN <==>
            || t == "account_data" || t == "appservice" || t == "background_worker" || t == "client_reader" || t == "device_lists"
            || t == "event_creator" || t == "event_persister" || t == "federation_inbound" || t == "federation_reader"
            || t == "federation_sender" || t == "media_repository" || t == "presence" || t == "push_rules" || t == "pusher"
            || t == "receipts" || t == "synchrotron" || t == "thread_subscriptions" || t == "to_device" || t == "typing" || t == "user_dir"
  {}

  /** The types of which there can be only one worker. */
  lemma SingleTypes(t: string)
    ensures !Shardable(t) <==>
            t == "account_data" || t == "background_worker" || t == "presence" || t == "receipts" || t == "to_device" || t == "typing"
  {}

  /** One requested worker: its name, when one was asked for, and what it runs. */
  datatype Request = Request(name: Option<string>, types: set<string>)

  datatype Worker = Worker(name: string, baseName: string, index: nat, types: set<string>)

  // ----- reading the strings -----

  function Split(s: string, c: char): (parts: seq<string>)
    ensures parts != []
    ensures c !in s ==> parts == [s]
    decreases |s|
  {
    match Find(s, c, 0)
    case None => [s]
    case Some(i) => [s[..i]] + Split(s[i + 1..], c)
  }

  /** The parts put together again with the character between them. */
  function Glue(parts: seq<string>, c: char): string {
    if parts == [] then "" else if |parts| == 1 then parts[0] else parts[0] + [c] + Glue(parts[1..], c)
  }

  lemma GlueMore(x: string, parts: seq<string>, c: char)
    requires parts != []
    ensures Glue([x] + parts, c) == x + [c] + Glue(parts, c)
  {
    assert ([x] + parts)[1..] == parts;
  }

  /** Up to its first occurrence of the character a string is its first part. */
  lemma SplitMore(x: string, c: char, rest: string)
    requires c !in x
    ensures Split(x + [c] + rest, c) == [x] + Split(rest, c)
  {
    var s := x + [c] + rest;
    assert s[..|x|] == x && s[|x| + 1..] == rest;
    FirstOf(s, c, 0, |x|);
    hide Find;
  }

  lemma GlueOne(x: string, c: char)
    ensures Glue([x], c) == x
  {}

  lemma {:induction false} SplitRejoins(s: string, c: char)
    ensures Glue(Split(s, c), c) == s && forall x :: x in Split(s, c) ==> c !in x
    decreases |s|
  {
    hide Find, Split, Glue;
    var found := Find(s, c, 0);
    if found.Some? {
      var x, rest := s[..found.value], s[found.value + 1..];
      assert s == x + [c] + rest;
      SplitMore(x, c, rest);
      SplitRejoins(rest, c);
      GlueMore(x, Split(rest, c), c);
    } else {
      assert s[0..] == s;
      GlueOne(s, c);
    }
  }

  lemma {:induction false} GluedSplits(parts: seq<string>, c: char)
    requires parts != [] && forall x :: x in parts ==> c !in x
    ensures Split(Glue(parts, c), c) == parts
  {
    hide Split, Glue;
    if |parts| == 1 {
      assert parts == [parts[0]] && parts[0] in parts;
      GlueOne(parts[0], c);
    } else {
      var rest := parts[1..];
      assert parts == [parts[0]] + rest && parts[0] in parts;
      assert forall x :: x in rest ==> x in parts;
      GlueMore(parts[0], rest, c);
      SplitMore(parts[0], c, Glue(rest, c));
      GluedSplits(rest, c);
    }
  }

  /** Splitting is the inverse of gluing parts that do not hold the character. */
  lemma SplitExactly(s: string, c: char, parts: seq<string>)
    ensures Split(s, c) == parts <==> parts != [] && (forall x :: x in parts ==> c !in x) && Glue(parts, c) == s
  {
    hide Split, Glue;
    SplitRejoins(s, c);
    if parts != [] && (forall x :: x in parts ==> c !in x) {
      GluedSplits(parts, c);
    }
  }

  function Strip(p: Platform, s: string): string
    decreases |s|
  {
    if s == "" then s
    else if p.blank(s[0]) then Strip(p, s[1..])
    else if p.blank(s[|s| - 1]) then Strip(p, s[..|s| - 1])
    else s
  }

  /** Stripping takes the blanks off both ends and nothing else. */
  lemma {:induction false} StripExactly(p: Platform, s: string) returns (i: nat, j: nat)
    ensures i <= j <= |s| && Strip(p, s) == s[i..j]
    ensures (forall k :: 0 <= k < i || j <= k < |s| ==> p.blank(s[k])) && (i < j ==> !p.blank(s[i]) && !p.blank(s[j - 1]))
    decreases |s|
  {
    if s == "" {
      i, j := 0, 0;
    } else if p.blank(s[0]) {
      i, j := StripExactly(p, s[1..]);
      assert s[1..][i..j] == s[i + 1..j + 1];
      forall k | 0 <= k < i + 1 || j + 1 <= k < |s| ensures p.blank(s[k]) {
        assert k > 0 ==> s[k] == s[1..][k - 1];
      }
      i, j := i + 1, j + 1;
    } else if p.blank(s[|s| - 1]) {
      i, j := StripExactly(p, s[..|s| - 1]);
      assert s[..|s| - 1][i..j] == s[i..j];
    } else {
      i, j := 0, |s|;
      assert s[0..|s|] == s;
    }
  }

  function Parts(p: Platform, s: string, c: char): (parts: seq<string>)
    ensures parts != []
  {
    var raw := Split(s, c);
    seq(|raw|, i requires 0 <= i < |raw| => Strip(p, raw[i]))
  }

  /** None where the script stops over a second equals sign. */
  function Parse(p: Platform, s: string): Option<Request> {
    if '=' !in s then Some(Request(None, set t | t in Parts(p, s, '+')))
    else
      var sides := Parts(p, s, '=');
      if |sides| != 2 then None else Some(Request(Some(sides[0]), set t | t in Parts(p, sides[1], '+')))
  }

  /** The types that a list of them separated by plus signs names. */
  ghost predicate Names(p: Platform, s: string, types: set<string>) {
    forall t :: t in types <==> exists part :: part in Split(s, '+') && t == Strip(p, part)
  }

  lemma PartsNamed(p: Platform, s: string)
    ensures Names(p, s, set t | t in Parts(p, s, '+'))
  {
    var raw, parts := Split(s, '+'), Parts(p, s, '+');
    forall part | part in raw ensures Strip(p, part) in parts {
      var i :| 0 <= i < |raw| && raw[i] == part;
      assert parts[i] == Strip(p, part);
    }
  }

  /** Without an equals sign a request has no name. */
  lemma ParsePlain(p: Platform, s: string)
    requires '=' !in s
    ensures Parse(p, s).Some? && Parse(p, s).value.name == None && Names(p, s, Parse(p, s).value.types)
  {
    PartsNamed(p, s);
  }

  /** With one, its name is what stands before the sign and its types what stands after. */
  lemma ParseNamed(p: Platform, left: string, right: string)
    requires '=' !in left && '=' !in right
    ensures var r := Parse(p, left + "=" + right);
            r.Some? && r.value.name == Some(Strip(p, left)) && Names(p, Strip(p, right), r.value.types)
  {
    SplitExactly(left + "=" + right, '=', [left, right]);
    PartsNamed(p, Strip(p, right));
  }

  /** A second one stops the script. */
  lemma ParseStops(p: Platform, left: string, middle: string, right: string)
    requires '=' !in left && '=' !in middle
    ensures Parse(p, left + "=" + middle + "=" + right) == None
  {
    var s := left + "=" + middle + "=" + right;
    assert s == left + ['='] + (middle + ['='] + right);
    SplitMore(left, '=', middle + ['='] + right);
    SplitMore(middle, '=', right);
    hide Split;
    assert |Split(s, '=')| >= 3 && '=' in s;
  }

  /** A request and how many copies of it are wanted; None where the count is no integer. */
  function Copies(p: Platform, s: string): Option<(string, int)> {
    match Find(s, ':', 0)
    case None => Some((s, 1))
    case Some(i) =>
      match p.toInt(Strip(p, s[i + 1..]))
      case None => None
      case Some(n) => Some((Strip(p, s[..i]), n))
  }

  /** Without a colon a request is for one worker; else the first colon ends it and begins its count. */
  lemma CopiesExactly(p: Platform, s: string, request: string, count: string)
    ensures ':' !in s ==> Copies(p, s) == Some((s, 1))
    ensures ':' !in request ==>
              Copies(p, request + ":" + count) ==
              match p.toInt(Strip(p, count)) case None => None case Some(n) => Some((Strip(p, request), n))
  {
    if ':' !in request {
      var t := request + ":" + count;
      assert t[..|request|] == request && t[|request| + 1..] == count;
      FirstOf(t, ':', 0, |request|);
    }
    assert s[0..] == s;
  }

  function Repeat(s: string, n: int): (r: seq<string>)
    ensures |r| == (if n < 0 then 0 else n) && forall i :: 0 <= i < |r| ==> r[i] == s
  {
    if n <= 0 then [] else seq(n, _ => s)
  }

  /** The requests with their multipliers applied. */
  function Expanded(p: Platform, strings: seq<string>): Option<seq<string>> {
    if strings == [] then Some([])
    else
      var n := |strings| - 1;
      match (Expanded(p, strings[..n]), Copies(p, strings[n]))
      case (Some(front), Some((s, count))) => Some(front + Repeat(s, count))
      case _ => None
  }

  /** How many workers the first `n` requests come to: a count below zero is none. */
  function CopiesUpTo(p: Platform, strings: seq<string>, n: nat): nat
    requires n <= |strings|
  {
    if n == 0 then 0
    else
      var copies := Copies(p, strings[n - 1]);
      CopiesUpTo(p, strings, n - 1) + if copies.Some? && copies.value.1 > 0 then copies.value.1 else 0
  }

  /** The multipliers can be applied exactly when every count is an integer. */
  lemma {:induction false} ExpandedExactly(p: Platform, strings: seq<string>)
    ensures Expanded(p, strings).Some? <==> forall i :: 0 <= i < |strings| ==> Copies(p, strings[i]).Some?
  {
    if strings != [] {
      var n := |strings| - 1;
      ExpandedExactly(p, strings[..n]);
      assert forall i :: 0 <= i < n ==> strings[..n][i] == strings[i];
    }
  }

  lemma {:induction false} CopiesOfPrefix(p: Platform, strings: seq<string>, m: nat, n: nat)
    requires n <= m <= |strings|
    ensures CopiesUpTo(p, strings[..m], n) == CopiesUpTo(p, strings, n)
  {
    if n > 0 {
      CopiesOfPrefix(p, strings, m, n - 1);
    }
  }

  lemma {:induction false} ExpandedLength(p: Platform, strings: seq<string>)
    requires Expanded(p, strings).Some?
    ensures |Expanded(p, strings).value| == CopiesUpTo(p, strings, |strings|)
  {
    if strings != [] {
      var n := |strings| - 1;
      ExpandedLength(p, strings[..n]);
      CopiesOfPrefix(p, strings, n, n);
    }
  }

  /** The copies of request `i` stand together, after those of all earlier requests. */
  predicate CopiesStand(p: Platform, strings: seq<string>, expanded: seq<string>, i: nat)
    requires i < |strings|
  {
    var from, to, copies := CopiesUpTo(p, strings, i), CopiesUpTo(p, strings, i + 1), Copies(p, strings[i]);
    copies.Some? && from <= to <= |expanded| && expanded[from..to] == Repeat(copies.value.0, copies.value.1)
  }

  /** Applied, they list the copies of each request one after another, in the order of the requests. */
  lemma {:induction false} ExpandedAt(p: Platform, strings: seq<string>, i: nat)
    requires Expanded(p, strings).Some? && i < |strings|
    ensures CopiesStand(p, strings, Expanded(p, strings).value, i)
  {
    hide Copies, Repeat;
    var n := |strings| - 1;
    var front := strings[..n];
    ExpandedLength(p, front);
    CopiesOfPrefix(p, strings, n, n);
    if i < n {
      ExpandedAt(p, front, i);
      CopiesOfPrefix(p, strings, n, i);
      CopiesOfPrefix(p, strings, n, i + 1);
      var from, to := CopiesUpTo(p, strings, i), CopiesUpTo(p, strings, i + 1);
      assert Expanded(p, strings).value[from..to] == Expanded(p, front).value[from..to];
    }
  }

  /** A count below zero asks for no worker, just as zero does. */
  lemma NegativeCountIsNone(p: Platform, front: seq<string>, s: string)
    requires Copies(p, s).Some? && Copies(p, s).value.1 <= 0
    ensures Expanded(p, front + [s]) == Expanded(p, front)
  {
    assert (front + [s])[..|front|] == front;
    if Expanded(p, front).Some? {
      assert Expanded(p, front).value + Repeat(Copies(p, s).value.0, Copies(p, s).value.1) == Expanded(p, front).value;
    }
  }

  /**
   * apply_requested_multiplier_for_worker: None exactly when some count is no integer, else the
   * copies of each request in order, as many as its count and none below zero.
   */
  method ApplyMultipliers(p: Platform, strings: seq<string>) returns (r: Option<seq<string>>)
    ensures r == Expanded(p, strings)
    ensures r.Some? <==> forall i :: 0 <= i < |strings| ==> Copies(p, strings[i]).Some?
    ensures r.Some? ==> |r.value| == CopiesUpTo(p, strings, |strings|)
    ensures r.Some? ==> forall i: nat :: i < |strings| ==> CopiesStand(p, strings, r.value, i)
  {
    hide Copies, Repeat, CopiesStand;
    ExpandedExactly(p, strings);
    var expanded: seq<string> := [];
    for i := 0 to |strings|
      invariant Expanded(p, strings[..i]) == Some(expanded)
    {
      assert strings[..i + 1][..i] == strings[..i];
      match Copies(p, strings[i]) {
        case None =>
          return None;
        case Some((s, count)) =>
          expanded := expanded + Repeat(s, count);
      }
    }
    assert strings[..|strings|] == strings;
    ExpandedLength(p, strings);
    forall i: nat | i < |strings| ensures CopiesStand(p, strings, expanded, i) {
      ExpandedAt(p, strings, i);
    }
    return Some(expanded);
  }

  // ----- names -----

  predicate Digit(c: char) { '0' <= c <= '9' }

  /** Letters, digits, `_`, `+` and `-`, not ending in a digit. */
  predicate Nameable(name: string) {
    && name != "" && !Digit(name[|name| - 1])
    && forall c :: c in name ==> 'a' <= c <= 'z' || 'A' <= c <= 'Z' || Digit(c) || c in "_+-"
  }

  /** The code of a letter or of `_`, `+` or `-`, and of a digit. */
  predicate NameCode(n: int) { 65 <= n <= 90 || 97 <= n <= 122 || n in {43, 45, 95} }

  predicate DigitCode(n: int) { 48 <= n <= 57 }

  lemma CharCodes(c: char)
    ensures 'a' <= c <= 'z' || 'A' <= c <= 'Z' || c in "_+-" <==> NameCode(c as int)
    ensures Digit(c) <==> DigitCode(c as int)
  {}

  /** The pattern of names: letters, digits and three signs, the last of them no digit. */
  lemma NameableExactly(name: string)
    ensures Nameable(name) <==>
            name != "" && NameCode(name[|name| - 1] as int) && forall c :: c in name ==> NameCode(c as int) || DigitCode(c as int)
  {
    forall c: char ensures ('a' <= c <= 'z' || 'A' <= c <= 'Z' || c in "_+-" <==> NameCode(c as int)) && (Digit(c) <==> DigitCode(c as int)) {
      CharCodes(c);
    }
    assert name != "" ==> name[|name| - 1] in name;
  }

  function Decimal(n: nat): (s: string)
    ensures s != "" && forall c :: c in s ==> Digit(c)
  {
    if n < 10 then ["0123456789"[n]] else Decimal(n / 10) + ["0123456789"[n % 10]]
  }

  /** The number that decimal digits stand for. */
  function ValueOf(digits: string): int {
    if digits == "" then 0 else 10 * ValueOf(digits[..|digits| - 1]) + (digits[|digits| - 1] as int - '0' as int)
  }

  lemma {:induction false} DecimalExactly(n: nat)
    ensures ValueOf(Decimal(n)) == n && (n > 0 ==> Decimal(n)[0] != '0')
  {
    if n >= 10 {
      DecimalExactly(n / 10);
      assert Decimal(n)[..|Decimal(n)| - 1] == Decimal(n / 10);
    }
  }

  lemma DigitValue(a: nat, b: nat)
    requires a < 10 && b < 10 && "0123456789"[a] == "0123456789"[b]
    ensures a == b
  {}

  lemma {:induction false} DecimalInjective(m: nat, n: nat)
    requires Decimal(m) == Decimal(n)
    ensures m == n
  {
    var a, b := Decimal(m), Decimal(n);
    assert a[|a| - 1] == "0123456789"[m % 10] && b[|b| - 1] == "0123456789"[n % 10];
    DigitValue(m % 10, n % 10);
    if 10 <= m && 10 <= n {
      assert a[..|a| - 1] == Decimal(m / 10) && b[..|b| - 1] == Decimal(n / 10);
      DecimalInjective(m / 10, n / 10);
    } else {
      assert 10 <= m ==> |a| >= 2;
      assert 10 <= n ==> |b| >= 2;
    }
  }

  predicate EndsPlain(base: string) { base != "" ==> !Digit(base[|base| - 1]) }

  lemma LongerBaseEndsInDigit(base: string, m: nat, base': string, n: nat)
    requires base + Decimal(m) == base' + Decimal(n) && |base| < |base'|
    ensures !EndsPlain(base')
  {
    var k := |base'| - 1;
    assert base'[k] == (base' + Decimal(n))[k] == Decimal(m)[k - |base|];
  }

  /** A base name that ends in no digit can be read back from a numbered name, and so can the number. */
  lemma NumberedNameUnique(base: string, m: nat, base': string, n: nat)
    requires EndsPlain(base) && EndsPlain(base')
    requires base + Decimal(m) == base' + Decimal(n)
    ensures base == base' && m == n
  {
    if |base| < |base'| {
      LongerBaseEndsInDigit(base, m, base', n);
      assert false;
    } else if |base'| < |base| {
      LongerBaseEndsInDigit(base', n, base, m);
      assert false;
    }
    var name := base + Decimal(m);
    assert base == name[..|base|] == base';
    assert Decimal(m) == name[|base|..] == Decimal(n);
    DecimalInjective(m, n);
  }

  lemma {:induction false} GlueEnds(parts: seq<string>)
    requires forall x :: x in parts ==> x != "" && EndsPlain(x)
    ensures EndsPlain(Glue(parts, '+'))
  {
    if |parts| > 1 {
      assert forall x :: x in parts[1..] ==> x in parts;
      GlueEnds(parts[1..]);
      assert parts[0] + ['+'] + Glue(parts[1..], '+') == parts[0] + (['+'] + Glue(parts[1..], '+'));
    }
  }

  /** The name before numbering: the requested one, else the sorted types joined. */
  function BaseName(p: Platform, r: Request): string {
    match r.name
    case Some(name) => name
    case None => Glue(p.sorted(r.types), '+')
  }

  /** A requested name is kept; a generated one can be split into the types again. */
  lemma BaseNameExactly(p: Platform, r: Request)
    requires Lists(p)
    ensures r.name.Some? ==> BaseName(p, r) == r.name.value
    ensures r.name.None? && r.types != {} && (forall t :: t in r.types ==> '+' !in t) ==>
              forall t :: t in Split(BaseName(p, r), '+') <==> t in r.types
  {
    if r.name.None? && r.types != {} && (forall t :: t in r.types ==> '+' !in t) {
      var t :| t in r.types;
      assert t in p.sorted(r.types);
      SplitExactly(BaseName(p, r), '+', p.sorted(r.types));
    }
  }

  /** What one request must satisfy by itself. */
  predicate Sound(r: Request) {
    (r.name.Some? ==> Nameable(r.name.value)) && r.types <= KNOWN
  }

  lemma KnownEndsPlain(t: string)
    requires t in KNOWN
    ensures t != "" && EndsPlain(t)
  {}

  lemma BaseEndsPlain(p: Platform, r: Request)
    requires Lists(p) && Sound(r)
    ensures EndsPlain(BaseName(p, r))
  {
    if r.name.None? {
      hide EndsPlain, Digit;
      forall x | x in p.sorted(r.types) ensures x != "" && EndsPlain(x) {
        KnownEndsPlain(x);
      }
      GlueEnds(p.sorted(r.types));
    }
  }

  // ----- what the parser accepts -----

  /** Two requests can stand together: no unshardable type twice, no base name for two sets of types. */
  predicate Compatible(p: Platform, a: Request, b: Request) {
    && (forall t :: t in a.types && t in b.types ==> Shardable(t))
    && (BaseName(p, a) == BaseName(p, b) ==> a.types == b.types)
  }

  predicate Acceptable(p: Platform, requests: seq<Request>) {
    && (forall i :: 0 <= i < |requests| ==> Sound(requests[i]))
    && (forall i, j :: 0 <= i < j < |requests| ==> Compatible(p, requests[i], requests[j]))
  }

  /** How many of the requests have this base name. */
  function CountOf(p: Platform, requests: seq<Request>, base: string): nat {
    if requests == [] then 0
    else
      var n := |requests| - 1;
      CountOf(p, requests[..n], base) + if BaseName(p, requests[n]) == base then 1 else 0
  }

  /** The worker made for the request at position `i`. */
  function WorkerAt(p: Platform, requests: seq<Request>, i: nat): Worker
    requires i < |requests|
  {
    var base := BaseName(p, requests[i]);
    var index := CountOf(p, requests[..i], base) + 1;
    Worker(base + Decimal(index), base, index, requests[i].types)
  }

  lemma {:induction false} CountGrows(p: Platform, requests: seq<Request>, base: string, m: nat, n: nat)
    requires m <= n <= |requests|
    ensures CountOf(p, requests[..m], base) <= CountOf(p, requests[..n], base)
    ensures (exists i :: m <= i < n && BaseName(p, requests[i]) == base) ==>
              CountOf(p, requests[..m], base) < CountOf(p, requests[..n], base)
  {
    if m < n {
      assert requests[..n][..n - 1] == requests[..n - 1];
      CountGrows(p, requests, base, m, n - 1);
    }
  }

  /** No two workers share a name. */
  lemma NamesDistinct(p: Platform, requests: seq<Request>, i: nat, j: nat)
    requires Lists(p) && i < j < |requests|
    requires Sound(requests[i]) && Sound(requests[j])
    ensures WorkerAt(p, requests, i).name != WorkerAt(p, requests, j).name
  {
    var a, b := WorkerAt(p, requests, i), WorkerAt(p, requests, j);
    BaseEndsPlain(p, requests[i]);
    BaseEndsPlain(p, requests[j]);
    if a.name == b.name {
      NumberedNameUnique(a.baseName, a.index, b.baseName, b.index);
      CountGrows(p, requests, a.baseName, i, j);
      assert false;
    }
  }

  /** The workers of a base name are numbered 1 to k without a gap. */
  lemma {:induction false} IndicesFill(p: Platform, requests: seq<Request>, base: string, k: nat) returns (i: nat)
    requires 1 <= k <= CountOf(p, requests, base)
    ensures i < |requests| && WorkerAt(p, requests, i).baseName == base && WorkerAt(p, requests, i).index == k
  {
    var n := |requests| - 1;
    if k <= CountOf(p, requests[..n], base) {
      i := IndicesFill(p, requests[..n], base, k);
      assert requests[..n][..i] == requests[..i];
    } else {
      i := n;
    }
  }

  // ----- the parser -----

  /** All the requests, or None where a string stops the script. */
  function Requests(p: Platform, strings: seq<string>): Option<seq<Request>> {
    if strings == [] then Some([])
    else
      var n := |strings| - 1;
      match (Requests(p, strings[..n]), Parse(p, strings[n]))
      case (Some(front), Some(r)) => Some(front + [r])
      case _ => None
  }

  /** The strings can be read exactly when each can, and then one by one. */
  lemma {:induction false} RequestsExactly(p: Platform, strings: seq<string>)
    ensures Requests(p, strings).Some? <==> forall i :: 0 <= i < |strings| ==> Parse(p, strings[i]).Some?
    ensures Requests(p, strings).Some? ==>
              && |Requests(p, strings).value| == |strings|
              && forall i :: 0 <= i < |strings| ==> Parse(p, strings[i]) == Some(Requests(p, strings).value[i])
  {
    if strings != [] {
      var n := |strings| - 1;
      RequestsExactly(p, strings[..n]);
      assert forall i :: 0 <= i < n ==> strings[..n][i] == strings[i];
    }
  }

  /** The types of the requests so far. */
  function TypesOf(requests: seq<Request>): set<string> {
    set r, t | r in requests && t in r.types :: t
  }

  /** The loop over the types of one request; `seen` counts the workers each type has. */
  method CheckTypes(types: set<string>, seen: map<string, nat>) returns (ok: bool, seen': map<string, nat>)
    ensures ok <==> types <= KNOWN && forall t :: t in types && t in seen ==> Shardable(t)
    ensures ok ==> seen'.Keys == seen.Keys + types
    ensures ok ==> forall t :: t in seen' ==>
              seen'[t] == (if t in seen then seen[t] else 0) + (if t in types then 1 else 0)
  {
    seen' := seen;
    var rest := types;
    while rest != {}
      invariant rest <= types && types - rest <= KNOWN
      invariant forall t :: t in types - rest && t in seen ==> Shardable(t)
      invariant seen'.Keys == seen.Keys + (types - rest)
      invariant forall t :: t in seen' ==>
                  seen'[t] == (if t in seen then seen[t] else 0) + (if t in types - rest then 1 else 0)
      decreases rest
    {
      var t :| t in rest;
      if t !in KNOWN || (t in seen' && !Shardable(t)) {
        return false, seen';
      }
      seen' := seen'[t := (if t in seen' then seen'[t] else 0) + 1];
      rest := rest - {t};
    }
    return true, seen';
  }

  /** The state of the parser after the requests so far: counters, and the workers in insertion order. */
  ghost predicate Parsed(p: Platform, requests: seq<Request>, counts: map<string, nat>, seen: map<string, nat>,
                         names: seq<string>, byName: map<string, Worker>)
  {
    && Acceptable(p, requests)
    && (forall base :: CountOf(p, requests, base) == if base in counts then counts[base] else 0)
    && seen.Keys == TypesOf(requests)
    && |names| == |requests|
    && (forall x :: x in byName <==> x in names)
    && (forall i :: 0 <= i < |requests| ==> names[i] == WorkerAt(p, requests, i).name)
    && (forall i :: 0 <= i < |requests| ==> names[i] in byName && byName[names[i]] == WorkerAt(p, requests, i))
  }

  /** A request can be added exactly when it is sound, and compatible with all the earlier ones. */
  lemma AcceptableMore(p: Platform, requests: seq<Request>, r: Request)
    ensures Acceptable(p, requests + [r]) <==>
            Acceptable(p, requests) && Sound(r) && forall i :: 0 <= i < |requests| ==> Compatible(p, requests[i], r)
  {
    hide Sound, Compatible;
    var more := requests + [r];
    assert forall i :: 0 <= i < |requests| ==> more[i] == requests[i];
    if Acceptable(p, more) {
      assert Sound(more[|requests|]);
      forall i | 0 <= i < |requests| ensures Compatible(p, requests[i], r) && Sound(requests[i]) {
        assert Compatible(p, more[i], more[|requests|]) && Sound(more[i]);
      }
      forall i, j | 0 <= i < j < |requests| ensures Compatible(p, requests[i], requests[j]) {
        assert Compatible(p, more[i], more[j]);
      }
    }
  }

  lemma SameBaseCounts(p: Platform, requests: seq<Request>, i: nat)
    requires i < |requests|
    ensures CountOf(p, requests, BaseName(p, requests[i])) >= 1
  {
    CountGrows(p, requests, BaseName(p, requests[i]), 0, |requests|);
    assert requests[..|requests|] == requests;
  }

  /** Compatibility with all the earlier requests, as the parser tests it. */
  lemma CompatibleByCounters(p: Platform, requests: seq<Request>, r: Request, first: Option<Request>)
    requires Acceptable(p, requests)
    requires match first
             case None => CountOf(p, requests, BaseName(p, r)) == 0
             case Some(f) => f in requests && BaseName(p, f) == BaseName(p, r)
    ensures (forall i :: 0 <= i < |requests| ==> Compatible(p, requests[i], r)) <==>
            && (forall t :: t in r.types && t in TypesOf(requests) ==> Shardable(t))
            && (first.Some? ==> first.value.types == r.types)
  {
    forall i | 0 <= i < |requests| ensures BaseName(p, requests[i]) == BaseName(p, r) ==> first.Some? && first.value.types == requests[i].types {
      if BaseName(p, requests[i]) == BaseName(p, r) {
        SameBaseCounts(p, requests, i);
        var k :| 0 <= k < |requests| && requests[k] == first.value;
        assert k == i || Compatible(p, requests[if k < i then k else i], requests[if k < i then i else k]);
      }
    }
    if forall i :: 0 <= i < |requests| ==> Compatible(p, requests[i], r) {
      forall t | t in r.types && t in TypesOf(requests) ensures Shardable(t) {
        var q :| q in requests && t in q.types;
        var i :| 0 <= i < |requests| && requests[i] == q;
        assert Compatible(p, requests[i], r);
      }
    } else if (forall t :: t in r.types && t in TypesOf(requests) ==> Shardable(t)) && (first.Some? ==> first.value.types == r.types) {
      forall i | 0 <= i < |requests| ensures Compatible(p, requests[i], r) {
        assert forall t :: t in requests[i].types ==> requests[i] in requests && t in TypesOf(requests);
      }
    }
  }

  lemma {:induction false} NoRequests(p: Platform, strings: seq<string>, n: nat)
    requires n <= |strings| && Requests(p, strings[..n]).None?
    ensures Requests(p, strings).None?
    decreases |strings| - n
  {
    if n < |strings| {
      assert strings[..n + 1][..n] == strings[..n];
      NoRequests(p, strings, n + 1);
    } else {
      assert strings[..n] == strings;
    }
  }

  /** Requests that are not acceptable so far never become acceptable. */
  lemma {:induction false} NeverAcceptable(p: Platform, strings: seq<string>, n: nat)
    requires n <= |strings| && Requests(p, strings[..n]).Some? && !Acceptable(p, Requests(p, strings[..n]).value)
    ensures var all := Requests(p, strings); all.Some? ==> !Acceptable(p, all.value)
    decreases |strings| - n
  {
    if n < |strings| {
      assert strings[..n + 1][..n] == strings[..n];
      match Parse(p, strings[n])
      case None => NoRequests(p, strings, n + 1);
      case Some(r) =>
        AcceptableMore(p, Requests(p, strings[..n]).value, r);
        NeverAcceptable(p, strings, n + 1);
    } else {
      assert strings[..n] == strings;
    }
  }

  lemma SoundIn(p: Platform, requests: seq<Request>, i: nat)
    requires Acceptable(p, requests) && i < |requests|
    ensures Sound(requests[i])
  {}

  lemma MoreTypes(requests: seq<Request>, r: Request)
    ensures TypesOf(requests + [r]) == TypesOf(requests) + r.types
  {
    assert forall q :: q in requests + [r] <==> q in requests || q == r;
  }

  lemma MoreCounts(p: Platform, requests: seq<Request>, r: Request)
    ensures forall base :: CountOf(p, requests + [r], base) == CountOf(p, requests, base) + if BaseName(p, r) == base then 1 else 0
  {
    hide BaseName;
    assert (requests + [r])[..|requests|] == requests;
  }

  lemma MoreWorkers(p: Platform, requests: seq<Request>, r: Request)
    requires Lists(p) && Acceptable(p, requests + [r])
    ensures forall i: nat {:trigger WorkerAt(p, requests, i)} :: i < |requests| ==>
              && WorkerAt(p, requests + [r], i) == WorkerAt(p, requests, i)
              && WorkerAt(p, requests, i).name != WorkerAt(p, requests + [r], |requests|).name
  {
    hide Acceptable, Sound, Decimal, BaseName, CountOf, Lists;
    var more, n := requests + [r], |requests|;
    SoundIn(p, more, n);
    forall i: nat | i < n
      ensures WorkerAt(p, more, i) == WorkerAt(p, requests, i) && WorkerAt(p, more, i).name != WorkerAt(p, more, n).name
    {
      assert more[..i] == requests[..i];
      SoundIn(p, more, i);
      NamesDistinct(p, more, i, n);
    }
  }

  lemma LastWorker(p: Platform, requests: seq<Request>, r: Request)
    ensures var base := BaseName(p, r);
            var index := CountOf(p, requests, base) + 1;
            WorkerAt(p, requests + [r], |requests|) == Worker(base + Decimal(index), base, index, r.types)
  {
    hide BaseName, CountOf, Decimal;
    assert (requests + [r])[..|requests|] == requests;
  }

  lemma ParsedMore(p: Platform, requests: seq<Request>, r: Request, counts: map<string, nat>, seen: map<string, nat>,
                   names: seq<string>, byName: map<string, Worker>, seen': map<string, nat>)
    requires Lists(p) && Parsed(p, requests, counts, seen, names, byName) && Acceptable(p, requests + [r])
    requires seen'.Keys == seen.Keys + r.types
    ensures var base := BaseName(p, r);
            var index := CountOf(p, requests, base) + 1;
            var name := base + Decimal(index);
            && name !in names
            && Parsed(p, requests + [r], counts[base := index], seen', names + [name], byName[name := Worker(name, base, index, r.types)])
  {
    hide Acceptable, Decimal, BaseName, Lists, WorkerAt, CountOf, TypesOf;
    LastWorker(p, requests, r);
    MoreWorkers(p, requests, r);
    MoreCounts(p, requests, r);
    MoreTypes(requests, r);
  }

  lemma NothingParsed(p: Platform)
    ensures Parsed(p, [], map[], map[], [], map[])
  {}

  lemma SoundExactly(r: Request)
    ensures Sound(r) <==> (r.name.Some? ==> Nameable(r.name.value)) && r.types <= KNOWN
  {}

  lemma FirstWorker(p: Platform, requests: seq<Request>, k: nat, base: string)
    requires k < |requests| && WorkerAt(p, requests, k).baseName == base && WorkerAt(p, requests, k).index == 1
    ensures WorkerAt(p, requests, k).name == base + Decimal(1)
    ensures WorkerAt(p, requests, k).types == requests[k].types && BaseName(p, requests[k]) == base
  {}

  /** One round of the parser: a request becomes a worker exactly when the requests stay acceptable. */
  method AddWorker(p: Platform, ghost requests: seq<Request>, request: Request, counts: map<string, nat>, seen: map<string, nat>,
                   names: seq<string>, byName: map<string, Worker>)
    returns (added: bool, counts': map<string, nat>, seen': map<string, nat>, names': seq<string>, byName': map<string, Worker>)
    requires Lists(p) && Parsed(p, requests, counts, seen, names, byName)
    ensures added <==> Acceptable(p, requests + [request])
    ensures added ==> Parsed(p, requests + [request], counts', seen', names', byName')
  {
    hide Acceptable, Compatible, Sound, Decimal, BaseName, Lists, WorkerAt, CountOf, TypesOf;
    added, counts', seen', names', byName' := false, counts, seen, names, byName;
    AcceptableMore(p, requests, request);
    var base := BaseName(p, request);
    var index := (if base in counts then counts[base] else 0) + 1;
    ghost var first: Option<Request> := None;
    if index > 1 {
      ghost var k := IndicesFill(p, requests, base, 1);
      first := Some(requests[k]);
      FirstWorker(p, requests, k, base);
      assert names[k] == base + Decimal(1);
    }
    CompatibleByCounters(p, requests, request, first);
    SoundExactly(request);
    if request.name.Some? && !Nameable(request.name.value) {
      return;
    }
    var ok: bool;
    ok, seen' := CheckTypes(request.types, seen);
    if !ok {
      return;
    }
    if index > 1 && byName[base + Decimal(1)].types != request.types {
      return;
    }
    var name := base + Decimal(index);
    ParsedMore(p, requests, request, counts, seen, names, byName, seen');
    added := true;
    counts' := counts[base := index];
    names' := if name in byName then names else names + [name];
    byName' := byName[name := Worker(name, base, index, request.types)];
  }

  /**
   * parse_worker_types. It succeeds exactly when every string can be read and the requests are
   * acceptable together; then there is one worker for each request, in order.
   */
  method ParseWorkerTypes(p: Platform, requested: seq<string>) returns (r: Option<seq<Worker>>)
    requires Lists(p)
    ensures r.Some? <==>
            && Expanded(p, requested).Some?
            && Requests(p, Expanded(p, requested).value).Some?
            && Acceptable(p, Requests(p, Expanded(p, requested).value).value)
    ensures r.Some? ==>
              var requests := Requests(p, Expanded(p, requested).value).value;
              |r.value| == |requests| && forall i :: 0 <= i < |requests| ==> r.value[i] == WorkerAt(p, requests, i)
  {
    hide Acceptable, Compatible, Sound, Decimal, BaseName, Lists, Expanded, WorkerAt, CountOf, TypesOf, Parse, Copies, CopiesStand, CopiesUpTo;
    var expanded := ApplyMultipliers(p, requested);
    if expanded.None? {
      return None;
    }
    var strings := expanded.value;
    var counts: map<string, nat>, seen: map<string, nat> := map[], map[];
    var names: seq<string>, byName: map<string, Worker> := [], map[];
    ghost var requests: seq<Request> := [];
    NothingParsed(p);
    for n := 0 to |strings|
      invariant Requests(p, strings[..n]) == Some(requests)
      invariant Parsed(p, requests, counts, seen, names, byName)
    {
      assert strings[..n + 1][..n] == strings[..n];
      var parsed := Parse(p, strings[n]);
      if parsed.None? {
        NoRequests(p, strings, n + 1);
        return None;
      }
      var request := parsed.value;
      assert Requests(p, strings[..n + 1]) == Some(requests + [request]);
      var added: bool;
      added, counts, seen, names, byName := AddWorker(p, requests, request, counts, seen, names, byName);
      if !added {
        NeverAcceptable(p, strings, n + 1);
        return None;
      }
      requests := requests + [request];
    }
    assert strings[..|strings|] == strings;
    return Some(seq(|names|, i requires 0 <= i < |names| && names[i] in byName => byName[names[i]]));
  }
}
