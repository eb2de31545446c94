/** The VALUES text of the batch statement, read back: which placeholder stands where. */
module SnifferValues {
  import opened Common
  import opened Decimal
  import opened SnifferEnqueue

  /** The number of digits a text starts with. */
  function DigitRun(t: string): (d: nat)
    ensures d <= |t| && forall i | 0 <= i < d :: IsDigit(t[i])
  {
    if |t| == 0 || !IsDigit(t[0]) then 0 else 1 + DigitRun(t[1..])
  }

  /** The numbers of the placeholders in a text, from left to right. */
  function Placeholders(t: string): seq<nat>
    decreases |t|
  {
    if |t| == 0 then []
    else if t[0] == '$' then
      var d := DigitRun(t[1..]);
      [ParseDigits(t[1..][..d])] + Placeholders(t[1..][d..])
    else Placeholders(t[1..])
  }

  lemma {:induction false} DigitRunOf(s: string, rest: string)
    requires (forall i | 0 <= i < |s| :: IsDigit(s[i])) && (|rest| > 0 ==> !IsDigit(rest[0]))
    ensures DigitRun(s + rest) == |s|
  {
    if |s| == 0 {
      assert s + rest == rest;
    } else {
      assert (s + rest)[1..] == s[1..] + rest;
      DigitRunOf(s[1..], rest);
    }
  }

  predicate NoDigitFirst(rest: string) {
    |rest| > 0 ==> !IsDigit(rest[0])
  }

  function ReadWith(t: string, rest: string): seq<nat> {
    Placeholders(t + rest)
  }

  /** In front of anything but a digit, the text contributes these placeholders. */
  ghost predicate Reads(t: string, ns: seq<nat>) {
    forall rest | NoDigitFirst(rest) :: ReadWith(t, rest) == ns + Placeholders(rest)
  }

  lemma ReadsMark(n: nat)
    ensures Reads(Mark(n), [n])
  {
    forall rest | NoDigitFirst(rest) ensures ReadWith(Mark(n), rest) == [n] + Placeholders(rest) {
      assert (Mark(n) + rest)[1..] == Digits(n) + rest;
      DigitRunOf(Digits(n), rest);
      ParseDigitsBack(n);
      assert (Digits(n) + rest)[..|Digits(n)|] == Digits(n) && (Digits(n) + rest)[|Digits(n)|..] == rest;
    }
  }

  lemma ReadsPlain(c: char)
    requires c != '$'
    ensures Reads([c], [])
  {
    forall rest | NoDigitFirst(rest) ensures ReadWith([c], rest) == [] + Placeholders(rest) {
      assert ([c] + rest)[1..] == rest;
    }
  }

  lemma ReadsBoth(a: string, x: seq<nat>, b: string, y: seq<nat>)
    requires Reads(a, x) && Reads(b, y) && |b| > 0 && !IsDigit(b[0])
    ensures Reads(a + b, x + y)
  {
    forall rest | NoDigitFirst(rest) ensures ReadWith(a + b, rest) == (x + y) + Placeholders(rest) {
      Assoc(a, b, rest);
      Assoc(x, y, Placeholders(rest));
      assert NoDigitFirst(b + rest);
      assert ReadWith(a + b, rest) == ReadWith(a, b + rest);
      assert ReadWith(b, rest) == Placeholders(b + rest);
    }
  }

  lemma AddMark(t: string, ns: seq<nat>, n: nat)
    requires Reads(t, ns)
    ensures Reads(t + Mark(n), ns + [n])
  {
    ReadsMark(n);
    ReadsBoth(t, ns, Mark(n), [n]);
  }

  lemma AddPlain(t: string, ns: seq<nat>, c: char)
    requires Reads(t, ns) && c != '$' && !IsDigit(c)
    ensures Reads(t + [c], ns)
  {
    ReadsPlain(c);
    ReadsBoth(t, ns, [c], []);
    assert ns + [] == ns;
  }

  /** The text of a group up to its i-th placeholder. */
  function Opening(g: seq<nat>, i: nat): string
    requires 1 <= i <= |g|
  {
    if i == 1 then "(" + Mark(g[0]) else Opening(g, i - 1) + "," + Mark(g[i - 1])
  }

  lemma {:induction false} OpeningReads(g: seq<nat>, i: nat)
    requires 1 <= i <= |g|
    ensures Reads(Opening(g, i), g[..i])
  {
    if i == 1 {
      ReadsPlain('(');
      AddMark("(", [], g[0]);
      assert g[..1] == [] + [g[0]];
    } else {
      OpeningReads(g, i - 1);
      AddPlain(Opening(g, i - 1), g[..i - 1], ',');
      AddMark(Opening(g, i - 1) + ",", g[..i - 1], g[i - 1]);
      assert g[..i] == g[..i - 1] + [g[i - 1]];
    }
  }

  lemma GroupOpens(g: seq<nat>)
    requires |g| == 5
    ensures GroupText(g) == Opening(g, 5) + ")"
  {
    assert Opening(g, 1) == "(" + Mark(g[0]);
    assert Opening(g, 2) == Opening(g, 1) + "," + Mark(g[1]);
    assert Opening(g, 3) == Opening(g, 2) + "," + Mark(g[2]);
    assert Opening(g, 4) == Opening(g, 3) + "," + Mark(g[3]);
  }

  lemma GroupReads(g: seq<nat>)
    requires |g| == 5
    ensures Reads(GroupText(g), g)
  {
    GroupOpens(g);
    OpeningReads(g, 5);
    AddPlain(Opening(g, 5), g[..5], ')');
    assert g[..5] == g;
  }

  function Joined(groups: seq<seq<nat>>): seq<nat> {
    if |groups| == 0 then [] else Joined(groups[..|groups| - 1]) + groups[|groups| - 1]
  }

  lemma {:induction false} ValuesRead(groups: seq<seq<nat>>)
    requires forall i | 0 <= i < |groups| :: |groups[i]| == 5
    ensures Reads(ValuesText(groups), Joined(groups))
    decreases |groups|
  {
    if |groups| == 0 {
      forall rest | NoDigitFirst(rest) ensures ReadWith("", rest) == [] + Placeholders(rest) {
        assert "" + rest == rest;
      }
    } else {
      var front, last := groups[..|groups| - 1], groups[|groups| - 1];
      ValuesRead(front);
      GroupReads(last);
      if |groups| > 1 {
        AddPlain(ValuesText(front), Joined(front), ',');
        ReadsBoth(ValuesText(front) + ",", Joined(front), GroupText(last), last);
      } else {
        ReadsBoth(ValuesText(front), Joined(front), GroupText(last), last);
      }
    }
  }

  lemma {:induction false} GroupsJoined(n: nat)
    ensures Joined(Groups(n)) == seq(5 * n, i requires 0 <= i => i + 1)
  {
    if n == 0 {
    } else {
      GroupsJoined(n - 1);
      assert Groups(n)[..n - 1] == Groups(n - 1);
    }
  }

  /** The text for n jobs holds the placeholders $1 to $5n, each once and in order. */
  lemma PlaceholdersInOrder(n: nat)
    ensures Placeholders(ValuesText(Groups(n))) == seq(5 * n, i requires 0 <= i => i + 1)
  {
    var text := ValuesText(Groups(n));
    ValuesRead(Groups(n));
    GroupsJoined(n);
    assert text + "" == text;
    assert ReadWith(text, "") == Joined(Groups(n)) + Placeholders("");
  }
}
