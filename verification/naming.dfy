// Invocation ids and queue names as strings: ids can be read back, and queue names never clash
// unless two over-long ids have the same digest.
module Naming {
  import opened Wrappers
  import opened Programs
  import opened Contexts
  import opened Runtime
  import opened RuntimeHistory

  predicate IsDigit(c: char) {
    '0' <= c <= '9'
  }

  predicate IsUuidChar(c: char) {
    IsDigit(c) || 'a' <= c <= 'f' || c == '-'
  }

  predicate IsUuid(s: string) {
    |s| == 36 && forall i :: 0 <= i < 36 ==> IsUuidChar(s[i])
  }

  /** `uuid(n)` is the n-th UUID drawn. Nothing is said of two draws being different. */
  ghost predicate Uuids(uuid: nat -> string) {
    forall n :: IsUuid(uuid(n))
  }

  function Digit(d: nat): (c: char)
    requires d < 10
    ensures IsDigit(c)
  {
    ['0', '1', '2', '3', '4', '5', '6', '7', '8', '9'][d]
  }

  function DigitValue(c: char): nat
    requires IsDigit(c)
  {
    (c - '0') as nat
  }

  function Decimal(k: nat): (s: string)
    ensures s != [] && forall i :: 0 <= i < |s| ==> IsDigit(s[i])
  {
    if k < 10 then [Digit(k)] else Decimal(k / 10) + [Digit(k % 10)]
  }

  function ReadDecimal(s: string): nat
    requires forall i :: 0 <= i < |s| ==> IsDigit(s[i])
  {
    if s == [] then 0 else 10 * ReadDecimal(s[..|s| - 1]) + DigitValue(s[|s| - 1])
  }

  lemma DigitReadBack(d: nat)
    requires d < 10
    ensures DigitValue(Digit(d)) == d
  {
  }

  lemma {:induction false} DecimalReadBack(k: nat)
    ensures ReadDecimal(Decimal(k)) == k
  {
    DigitReadBack(k % 10);
    if k >= 10 {
      DecimalReadBack(k / 10);
      assert Decimal(k)[..|Decimal(k)| - 1] == Decimal(k / 10);
    } else {
      assert Decimal(k)[..0] == [];
    }
  }

  const MARK := "_child_"

  /** The string form of an id (fn.js:469). */
  function Render(uuid: nat -> string, id: Id): string {
    match id
    case Uuid(n) => uuid(n)
    case Child(p, k) => Render(uuid, p) + MARK + Decimal(k)
  }

  function RootOf(id: Id): nat {
    match id
    case Uuid(n) => n
    case Child(p, _) => RootOf(p)
  }

  /** The child indices from the root down. */
  function PathOf(id: Id): seq<nat> {
    match id
    case Uuid(_) => []
    case Child(p, k) => PathOf(p) + [k]
  }

  // ---- Reading the ancestry back ----

  /** The length of the run of digits at the end. */
  function DigitRun(s: string): (n: nat)
    ensures n <= |s| && forall i :: |s| - n <= i < |s| ==> IsDigit(s[i])
  {
    if s == [] || !IsDigit(s[|s| - 1]) then 0 else 1 + DigitRun(s[..|s| - 1])
  }

  /** What stands before the last marker that is followed by digits only, and these digits. */
  function CutMark(s: string): (r: Option<(string, string)>)
    ensures r.Some? ==> |r.value.0| < |s| && forall i :: 0 <= i < |r.value.1| ==> IsDigit(r.value.1[i])
  {
    var n := DigitRun(s);
    var m := |s| - n - |MARK|;
    if n == 0 || m < 0 || s[m..m + |MARK|] != MARK then None else Some((s[..m], s[|s| - n..]))
  }

  /** The root's UUID and the path below it, read off the string alone. */
  function ReadBack(s: string): Option<(string, seq<nat>)>
    decreases |s|
  {
    if |s| <= 36 then Some((s, []))
    else
      match CutMark(s)
      case None => None
      case Some((prefix, digits)) =>
        match ReadBack(prefix)
        case None => None
        case Some((root, path)) => Some((root, path + [ReadDecimal(digits)]))
  }

  lemma {:induction false} DigitRunExact(s: string, t: string)
    requires s != [] && !IsDigit(s[|s| - 1])
    requires forall i :: 0 <= i < |t| ==> IsDigit(t[i])
    ensures DigitRun(s + t) == |t|
    decreases |t|
  {
    if t == [] {
      assert s + t == s;
    } else {
      DigitRunExact(s, t[..|t| - 1]);
      assert (s + t)[..|s + t| - 1] == s + t[..|t| - 1];
    }
  }

  lemma {:induction false} RenderLength(uuid: nat -> string, id: Id)
    requires Uuids(uuid)
    ensures |Render(uuid, id)| >= 36
    ensures Render(uuid, id)[..36] == uuid(RootOf(id))
    ensures id.Child? ==> |Render(uuid, id)| > 36
  {
    if id.Child? {
      RenderLength(uuid, id.parent);
      assert Render(uuid, id)[..36] == Render(uuid, id.parent)[..36];
    } else {
      assert IsUuid(uuid(id.n));
    }
  }

  /** The last step of an id is cut off by its marker and its run of digits. */
  lemma CutMarkExact(prefix: string, digits: string, s: string)
    requires s == prefix + MARK + digits
    requires digits != [] && forall i :: 0 <= i < |digits| ==> IsDigit(digits[i])
    ensures CutMark(s) == Some((prefix, digits)) && |s| > |prefix|
  {
    DigitRunExact(prefix + MARK, digits);
    assert s[..|prefix|] == prefix && s[|prefix|..|prefix| + |MARK|] == MARK && s[|s| - |digits|..] == digits;
  }

  /** The whole ancestry can be read back from the id. */
  lemma {:induction false} AncestryReadBack(uuid: nat -> string, id: Id)
    requires Uuids(uuid)
    ensures ReadBack(Render(uuid, id)) == Some((uuid(RootOf(id)), PathOf(id)))
  {
    match id
    case Uuid(_) =>
      assert IsUuid(uuid(id.n));
    case Child(p, k) =>
      RenderLength(uuid, p);
      AncestryReadBack(uuid, p);
      DecimalReadBack(k);
      CutMarkExact(Render(uuid, p), Decimal(k), Render(uuid, id));
  }

  lemma {:induction false} PathDetermines(a: Id, b: Id)
    requires RootOf(a) == RootOf(b) && PathOf(a) == PathOf(b)
    ensures a == b
  {
    if a.Child? {
      assert PathOf(b) != [];
      assert PathOf(a)[..|PathOf(a)| - 1] == PathOf(a.parent) && PathOf(b)[..|PathOf(b)| - 1] == PathOf(b.parent);
      assert PathOf(a)[|PathOf(a)| - 1] == a.k && PathOf(b)[|PathOf(b)| - 1] == b.k;
      PathDetermines(a.parent, b.parent);
    } else {
      assert PathOf(b) == [];
    }
  }

  /** Two ids are the same string exactly when their roots drew the same UUID and the paths agree. */
  lemma RenderEqual(uuid: nat -> string, a: Id, b: Id)
    requires Uuids(uuid)
    ensures Render(uuid, a) == Render(uuid, b) <==> uuid(RootOf(a)) == uuid(RootOf(b)) && PathOf(a) == PathOf(b)
  {
    AncestryReadBack(uuid, a);
    AncestryReadBack(uuid, b);
    if uuid(RootOf(a)) == uuid(RootOf(b)) && PathOf(a) == PathOf(b) { SamePathSameText(uuid, a, b); }
  }

  lemma {:induction false} SamePathSameText(uuid: nat -> string, a: Id, b: Id)
    requires uuid(RootOf(a)) == uuid(RootOf(b)) && PathOf(a) == PathOf(b)
    ensures Render(uuid, a) == Render(uuid, b)
  {
    PathLast(a);
    PathLast(b);
    if a.Child? { SamePathSameText(uuid, a.parent, b.parent); }
  }

  lemma PathLast(id: Id)
    ensures id.Uuid? <==> PathOf(id) == []
    ensures id.Child? ==> var n := |PathOf(id)| - 1; PathOf(id)[..n] == PathOf(id.parent) && PathOf(id)[n] == id.k
  {
  }

  /** Different roots drew different UUIDs. */
  predicate RootsApart(uuid: nat -> string, a: Id, b: Id) {
    uuid(RootOf(a)) == uuid(RootOf(b)) ==> RootOf(a) == RootOf(b)
  }

  /** Invocations whose roots drew different UUIDs have different ids. */
  lemma RenderInjective(uuid: nat -> string, a: Id, b: Id)
    requires Uuids(uuid) && RootsApart(uuid, a, b) && Render(uuid, a) == Render(uuid, b)
    ensures a == b
  {
    RenderEqual(uuid, a, b);
    PathDetermines(a, b);
  }

  // ---- Whole runs ----

  /** No two of the UUIDs the run has drawn are alike. */
  ghost predicate DistinctDraws(uuid: nat -> string, c: Config) {
    forall m: nat, n: nat :: Uuid(m) in c.issued && Uuid(n) in c.issued && uuid(m) == uuid(n) ==> m == n
  }

  ghost predicate DistinctTexts(uuid: nat -> string, c: Config) {
    forall i, j :: 0 <= i < j < |c.issued| ==> Render(uuid, c.issued[i]) != Render(uuid, c.issued[j])
  }

  lemma {:induction false} RootIssued(c: Config, id: Id)
    requires IssuedOk(c) && id in c.issued
    ensures Uuid(RootOf(id)) in c.issued
  {
    if id.Child? { RootIssued(c, id.parent); }
  }

  lemma DrawsMakeTexts(uuid: nat -> string, c: Config)
    requires Uuids(uuid) && IssuedOk(c) && DistinctDraws(uuid, c)
    ensures DistinctTexts(uuid, c)
  {
    forall i, j | 0 <= i < j < |c.issued| ensures Render(uuid, c.issued[i]) != Render(uuid, c.issued[j]) {
      RootIssued(c, c.issued[i]);
      RootIssued(c, c.issued[j]);
      if Render(uuid, c.issued[i]) == Render(uuid, c.issued[j]) { RenderInjective(uuid, c.issued[i], c.issued[j]); }
    }
  }

  lemma TextsMakeDraws(uuid: nat -> string, c: Config)
    requires DistinctTexts(uuid, c)
    ensures DistinctDraws(uuid, c)
  {
    forall m: nat, n: nat | Uuid(m) in c.issued && Uuid(n) in c.issued && uuid(m) == uuid(n) ensures m == n {
      var i :| 0 <= i < |c.issued| && c.issued[i] == Uuid(m);
      var j :| 0 <= j < |c.issued| && c.issued[j] == Uuid(n);
      assert Render(uuid, c.issued[i]) == Render(uuid, c.issued[j]);
    }
  }

  /** Over a whole crash-free run the id strings sent out are pairwise distinct if and only if the
      UUIDs it has drawn, one for the root and one for each `next`, are. */
  lemma IssuedIdsDistinct(uuid: nat -> string, p: Program, root: Task, c: Config)
    requires Uuids(uuid) && p.WellFormed() && Reachable(p, root, c)
    ensures DistinctTexts(uuid, c) <==> DistinctDraws(uuid, c)
  {
    var cs :| IsRun(p, root, cs) && cs[|cs| - 1] == c;
    RunLogged(p, root, cs, |cs| - 1);
    if DistinctDraws(uuid, c) { DrawsMakeTexts(uuid, c); }
    if DistinctTexts(uuid, c) { TextsMakeDraws(uuid, c); }
  }

  // ---- Such draws exist ----

  function Power(w: nat): nat {
    if w == 0 then 1 else 10 * Power(w - 1)
  }

  /** The last `w` decimal digits. */
  function Padded(n: nat, w: nat): (s: string)
    ensures |s| == w && forall i :: 0 <= i < w ==> IsDigit(s[i])
  {
    if w == 0 then "" else Padded(n / 10, w - 1) + [Digit(n % 10)]
  }

  lemma {:induction false} PaddedInjective(m: nat, n: nat, w: nat)
    requires m < Power(w) && n < Power(w) && Padded(m, w) == Padded(n, w)
    ensures m == n
  {
    if w > 0 {
      assert Padded(m, w)[..w - 1] == Padded(m / 10, w - 1) && Padded(n, w)[..w - 1] == Padded(n / 10, w - 1);
      assert Padded(m, w)[w - 1] == Digit(m % 10) && Padded(n, w)[w - 1] == Digit(n % 10);
      DigitReadBack(m % 10);
      DigitReadBack(n % 10);
      PaddedInjective(m / 10, n / 10, w - 1);
    }
  }

  function Counted(n: nat): string {
    Padded(n, 36)
  }

  lemma CountedDistinct(c: Config)
    requires IssuedOk(c) && c.clock <= Power(36)
    ensures DistinctDraws(Counted, c)
  {
    forall m: nat, n: nat | Uuid(m) in c.issued && Uuid(n) in c.issued && Counted(m) == Counted(n) ensures m == n {
      PaddedInjective(m, n, 36);
    }
  }

  /** Counting up in 36 digits draws UUIDs that keep the strings of every run with fewer than 10 to the
      36 messages apart, so the hypotheses above can be met. */
  lemma CountedDraws(p: Program, root: Task, c: Config)
    requires p.WellFormed() && Reachable(p, root, c) && c.clock <= Power(36)
    ensures Uuids(Counted) && DistinctTexts(Counted, c)
  {
    var cs :| IsRun(p, root, cs) && cs[|cs| - 1] == c;
    RunLogged(p, root, cs, |cs| - 1);
    CountedDistinct(c);
    IssuedIdsDistinct(Counted, p, root, c);
  }

  // ---- Queue names ----

  datatype Suffix = Inbox | Agg

  function Text(s: Suffix): string {
    match s
    case Inbox => "inbox"
    case Agg => "agg"
  }

  /** The readable name when it fits, otherwise one built on a 40 character digest (fn.js:39-44). */
  function QueueName(digest: string -> string, id: string, suffix: Suffix): string {
    var base := id + "-" + Text(suffix);
    if |base| <= 80 then base else "florca-" + digest(id) + "-" + Text(suffix)
  }

  predicate Hashed(id: string, suffix: Suffix) {
    |id + "-" + Text(suffix)| > 80
  }

  /** The names by the length of the id: 74 characters leave room for an inbox, 76 for an agg queue. */
  lemma QueueNameForms(digest: string -> string, id: string)
    ensures QueueName(digest, id, Inbox) == if |id| <= 74 then id + "-inbox" else "florca-" + digest(id) + "-inbox"
    ensures QueueName(digest, id, Agg) == if |id| <= 76 then id + "-agg" else "florca-" + digest(id) + "-agg"
  {
    assert id + "-" + "inbox" == id + "-inbox" && id + "-" + "agg" == id + "-agg";
    var hashed := "florca-" + digest(id);
    assert hashed + "-" + "inbox" == hashed + "-inbox" && hashed + "-" + "agg" == hashed + "-agg";
  }

  /** The documented form of a name: `uuid_child_0_child_1-inbox`. */
  lemma GrandchildInbox(uuid: nat -> string, digest: string -> string, n: nat)
    requires Uuids(uuid)
    ensures QueueName(digest, Render(uuid, Child(Child(Uuid(n), 0), 1)), Inbox) == uuid(n) + "_child_0_child_1-inbox"
  {
    var id := uuid(n) + "_child_0_child_1";
    assert Render(uuid, Child(Uuid(n), 0)) == uuid(n) + "_child_" + "0";
    assert Render(uuid, Child(Child(Uuid(n), 0), 1)) == uuid(n) + "_child_" + "0" + "_child_" + "1";
    assert id == uuid(n) + "_child_" + "0" + "_child_" + "1";
    assert IsUuid(uuid(n));
    QueueNameForms(digest, id);
    assert id + "-inbox" == uuid(n) + "_child_0_child_1-inbox";
  }

  /** Queue names fit the 80 characters the queue service allows. */
  lemma QueueNameBounded(digest: string -> string, id: string, suffix: Suffix)
    requires |digest(id)| == 40
    ensures |QueueName(digest, id, suffix)| <= 80
  {
    var name := QueueName(digest, id, suffix);
    assert suffix.Inbox? || suffix.Agg?;
    assert |Text(suffix)| <= 5;
  }

  lemma SuffixVisible(digest: string -> string, a: string, s: Suffix, b: string, t: Suffix)
    requires QueueName(digest, a, s) == QueueName(digest, b, t)
    ensures s == t
  {
    var x := QueueName(digest, a, s);
    var y := QueueName(digest, b, t);
    assert x[|x| - 1] == Text(s)[|Text(s)| - 1];
    assert y[|y| - 1] == Text(t)[|Text(t)| - 1];
    assert "inbox"[4] == 'x' && "agg"[2] == 'g';
  }

  lemma SameReadable(x: string, y: string, tail: string)
    requires x + tail == y + tail
    ensures x == y
  {
    assert |x| == |y|;
    assert (x + tail)[..|x|] == x && (y + tail)[..|y|] == y;
  }

  lemma SameHashed(dx: string, dy: string, tail: string)
    requires |dx| == |dy| && "florca-" + dx + tail == "florca-" + dy + tail
    ensures dx == dy
  {
    SameReadable("florca-" + dx, "florca-" + dy, tail);
    assert ("florca-" + dx)[7..] == dx && ("florca-" + dy)[7..] == dy;
  }

  /** Two queues share a name exactly when they are the same queue, or both ids are hashed to the same
      digest; in particular an inbox is never an aggregation queue. */
  lemma QueueNamesClash(uuid: nat -> string, digest: string -> string, a: Id, s: Suffix, b: Id, t: Suffix)
    requires Uuids(uuid) && RootsApart(uuid, a, b)
    requires |digest(Render(uuid, a))| == 40 && |digest(Render(uuid, b))| == 40
    ensures var x, y := Render(uuid, a), Render(uuid, b);
            QueueName(digest, x, s) == QueueName(digest, y, t) <==>
              s == t && (a == b || (Hashed(x, s) && Hashed(y, s) && digest(x) == digest(y)))
  {
    var x, y := Render(uuid, a), Render(uuid, b);
    if QueueName(digest, x, s) == QueueName(digest, y, t) {
      SuffixVisible(digest, x, s, y, t);
      SameName(uuid, digest, a, b, s);
    }
  }

  lemma SameName(uuid: nat -> string, digest: string -> string, a: Id, b: Id, s: Suffix)
    requires Uuids(uuid) && RootsApart(uuid, a, b)
    requires |digest(Render(uuid, a))| == 40 && |digest(Render(uuid, b))| == 40
    requires QueueName(digest, Render(uuid, a), s) == QueueName(digest, Render(uuid, b), s)
    ensures var x, y := Render(uuid, a), Render(uuid, b);
            a == b || (Hashed(x, s) && Hashed(y, s) && digest(x) == digest(y))
  {
    var x, y := Render(uuid, a), Render(uuid, b);
    var tail := "-" + Text(s);
    if Hashed(x, s) {
      if Hashed(y, s) {
        assert "florca-" + digest(x) + "-" + Text(s) == "florca-" + digest(x) + tail;
        assert "florca-" + digest(y) + "-" + Text(s) == "florca-" + digest(y) + tail;
        SameHashed(digest(x), digest(y), tail);
      } else {
        HashedNotReadable(uuid, digest, b, x, s);
      }
    } else if Hashed(y, s) {
      HashedNotReadable(uuid, digest, a, y, s);
    } else {
      assert x + "-" + Text(s) == x + tail && y + "-" + Text(s) == y + tail;
      SameReadable(x, y, tail);
      RenderInjective(uuid, a, b);
    }
  }

  /** A readable name starts with a UUID, which has no `l` in it; a hashed one starts with `florca-`. */
  lemma HashedNotReadable(uuid: nat -> string, digest: string -> string, readable: Id, other: string, s: Suffix)
    requires Uuids(uuid)
    ensures Render(uuid, readable) + "-" + Text(s) != "florca-" + digest(other) + "-" + Text(s)
  {
    RenderLength(uuid, readable);
    var x := Render(uuid, readable);
    assert IsUuid(uuid(RootOf(readable)));
    assert x[1] == x[..36][1] && (x + "-" + Text(s))[1] == x[1];
    assert ("florca-" + digest(other) + "-" + Text(s))[1] == 'l';
  }
}
