/** The string keys "group:topic:partition" under which windows and analyzer state are filed. */
module Keys {
  ghost predicate ColonFree(s: string) {
    forall i :: 0 <= i < |s| ==> s[i] != ':'
  }

  function Digits(n: nat): string {
    if n < 10 then [('0' as int + n) as char]
    else Digits(n / 10) + [('0' as int + n % 10) as char]
  }

  function Decimal(n: int): string {
    if n < 0 then "-" + Digits(-n) else Digits(n)
  }

  function Key(group: string, topic: string, partition: int): string {
    group + ":" + topic + ":" + Decimal(partition)
  }

  /** The index of the first colon, or the length of s when it has none. */
  function FirstColon(s: string): (i: nat)
    ensures i <= |s| && ColonFree(s[..i])
    ensures i < |s| ==> s[i] == ':'
  {
    if s == "" || s[0] == ':' then 0
    else 1 + FirstColon(s[1..])
  }

  /** What the clean-up takes for the group of a window key: everything before the first colon. */
  function GroupPart(key: string): string {
    key[..FirstColon(key)]
  }

  // ----- decimals -----

  function ValueOf(s: string): int {
    if s == "" then 0
    else ValueOf(s[..|s| - 1]) * 10 + (s[|s| - 1] as int - '0' as int)
  }

  lemma {:induction false} DigitsRoundTrip(n: nat)
    ensures ValueOf(Digits(n)) == n
    ensures forall i :: 0 <= i < |Digits(n)| ==> '0' <= Digits(n)[i] <= '9'
    ensures Digits(n) != ""
  {
    if n >= 10 {
      DigitsRoundTrip(n / 10);
      var last := ('0' as int + n % 10) as char;
      assert Digits(n) == Digits(n / 10) + [last];
      assert Digits(n)[..|Digits(n)| - 1] == Digits(n / 10);
      assert last as int == '0' as int + n % 10;
    } else {
      assert Digits(n)[..0] == "";
    }
  }

  lemma DecimalIsInjective(m: int, n: int)
    ensures ColonFree(Decimal(n))
    ensures Decimal(m) == Decimal(n) ==> m == n
  {
    var a, b := if m < 0 then -m else m, if n < 0 then -n else n;
    DigitsRoundTrip(a);
    DigitsRoundTrip(b);
    if Decimal(m) == Decimal(n) {
      assert Decimal(m)[0] == Decimal(n)[0];
      assert m < 0 ==> Decimal(m)[1..] == Digits(a);
      assert n < 0 ==> Decimal(n)[1..] == Digits(b);
    }
  }

  // ----- keys -----

  /** Whatever follows the last colon is determined by the whole string, and so is what precedes it. */
  lemma LastColonSplits(a: string, b: string, c: string, d: string)
    requires ColonFree(b) && ColonFree(d)
    requires a + ":" + b == c + ":" + d
    ensures a == c && b == d
  {
    var s, t := a + ":" + b, c + ":" + d;
    assert s[|a|] == ':' && t[|c|] == ':';
    assert s[..|a|] == a && t[..|c|] == c;
    assert s[|a| + 1..] == b && t[|c| + 1..] == d;
  }

  /** For colon-free topics the key determines group, topic and partition, whatever the group name. */
  lemma KeyIsInjective(g1: string, t1: string, p1: int, g2: string, t2: string, p2: int)
    requires ColonFree(t1) && ColonFree(t2)
    requires Key(g1, t1, p1) == Key(g2, t2, p2)
    ensures g1 == g2 && t1 == t2 && p1 == p2
  {
    DecimalIsInjective(p1, p2);
    DecimalIsInjective(p2, p1);
    LastColonSplits(g1 + ":" + t1, Decimal(p1), g2 + ":" + t2, Decimal(p2));
    LastColonSplits(g1, t1, g2, t2);
  }

  function BeforeLastColon(s: string): string {
    if s == "" then ""
    else if s[|s| - 1] == ':' then s[..|s| - 1]
    else BeforeLastColon(s[..|s| - 1])
  }

  /** The group a window key was made for: everything before its second colon from the end. */
  function OwnerOf(key: string): string {
    BeforeLastColon(BeforeLastColon(key))
  }

  lemma {:induction false} BeforeLastColonOfSplit(a: string, b: string)
    requires ColonFree(b)
    ensures BeforeLastColon(a + ":" + b) == a
  {
    var s := a + ":" + b;
    if b == "" {
      assert s[..|s| - 1] == a;
    } else {
      BeforeLastColonOfSplit(a, b[..|b| - 1]);
      assert s[|s| - 1] == b[|b| - 1];
      assert s[..|s| - 1] == a + ":" + b[..|b| - 1];
    }
  }

  /** A key made with a colon-free topic names its group unambiguously, even when the group has colons. */
  lemma OwnerOfKey(group: string, topic: string, partition: int)
    requires ColonFree(topic)
    ensures OwnerOf(Key(group, topic, partition)) == group
  {
    DecimalIsInjective(partition, partition);
    BeforeLastColonOfSplit(group + ":" + topic, Decimal(partition));
    BeforeLastColonOfSplit(group, topic);
  }

  lemma {:induction false} LastColonOf(s: string) returns (a: string, b: string)
    requires !ColonFree(s)
    ensures s == a + ":" + b && ColonFree(b)
  {
    var n := |s| - 1;
    if s[n] == ':' {
      a, b := s[..n], "";
    } else {
      a, b := LastColonOf(s[..n]);
      b := b + [s[n]];
      assert s == s[..n] + [s[n]];
    }
  }

  lemma ColonShifts(group: string, a: string, b: string, partition: int)
    ensures Key(group, a + ":" + b, partition) == Key(group + ":" + a, b, partition)
  {
    assert group + ":" + (a + ":" + b) == group + ":" + a + ":" + b;
  }

  /** The key with a topic is shared with no other group, topic and partition, the other topic being colon-free. */
  ghost predicate KeyIsOwn(group: string, topic: string, partition: int) {
    forall g, t, p :: ColonFree(t) && Key(g, t, p) == Key(group, topic, partition) ==>
      g == group && t == topic && p == partition
  }

  /** A topic keeps its keys to itself exactly when it has no colon; with one, every key of it is shared. */
  lemma KeyIsOwnIffColonFree(group: string, topic: string, partition: int)
    ensures KeyIsOwn(group, topic, partition) <==> ColonFree(topic)
  {
    if ColonFree(topic) {
      forall g, t, p | ColonFree(t) && Key(g, t, p) == Key(group, topic, partition)
        ensures g == group && t == topic && p == partition
      {
        KeyIsInjective(g, t, p, group, topic, partition);
      }
    } else {
      var a, b := LastColonOf(topic);
      ColonShifts(group, a, b, partition);
      assert |b| < |topic|;
    }
  }

  lemma {:induction false} FirstColonOfSplit(a: string, b: string)
    ensures GroupPart(a + ":" + b) == GroupPart(a)
  {
    var s := a + ":" + b;
    if a == "" {
      assert s[0] == ':';
    } else if a[0] != ':' {
      assert s[1..] == a[1..] + ":" + b;
      FirstColonOfSplit(a[1..], b);
      assert s[..FirstColon(s)] == [s[0]] + GroupPart(s[1..]);
      assert a[..FirstColon(a)] == [a[0]] + GroupPart(a[1..]);
    }
  }

  /** The group read back from a key is the group's own text up to its first colon. */
  lemma GroupPartOfKey(group: string, topic: string, partition: int)
    ensures GroupPart(Key(group, topic, partition)) == GroupPart(group)
    ensures GroupPart(group) == group <==> ColonFree(group)
  {
    assert Key(group, topic, partition) == group + ":" + (topic + ":" + Decimal(partition));
    FirstColonOfSplit(group, topic + ":" + Decimal(partition));
    if ColonFree(group) {
      assert FirstColon(group) == |group|;
    }
  }
}
