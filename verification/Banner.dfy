/** The footer banner that packs the pending calls into the width of the screen. */
module Banner {

  /** A call without a result; its elapsed time is given as the text it is shown with. */
  datatype PendingCall = PendingCall(toolName: string, elapsed: string, userBlocking: bool)

  function Decimal(n: nat): (s: string)
    ensures s != ""
  {
    var digit := ['0' + (n % 10) as char];
    if n < 10 then digit else Decimal(n / 10) + digit
  }

  /** The number that a text of decimal digits stands for. */
  function NumberOf(s: string): int {
    if s == "" then 0 else NumberOf(s[..|s| - 1]) * 10 + (s[|s| - 1] as int - '0' as int)
  }

  /** `s` is `n` in decimal digits, without a leading zero. */
  ghost predicate IsCount(s: string, n: nat) {
    && s != "" && (forall c | c in s :: '0' <= c <= '9') && NumberOf(s) == n
    && (|s| > 1 ==> s[0] != '0')
  }

  lemma {:induction false} DecimalReads(n: nat)
    ensures IsCount(Decimal(n), n)
  {
    var s := Decimal(n);
    if n < 10 {
      assert s[..0] == "";
    } else {
      DecimalReads(n / 10);
      var front := Decimal(n / 10);
      assert s[..|s| - 1] == front && s[0] == front[0];
      assert |front| == 1 ==> front[..0] == "";
    }
  }

  function Join(parts: seq<string>): string {
    if parts == [] then ""
    else if |parts| == 1 then parts[0]
    else parts[0] + " " + Join(parts[1..])
  }

  function Entry(p: PendingCall): string {
    p.toolName + "(" + p.elapsed + ")"
  }

  function Entries(pending: seq<PendingCall>): seq<string> {
    seq(|pending|, i requires 0 <= i < |pending| => Entry(pending[i]))
  }

  /** The banner that shows the first `keep` calls, with texts for the number of all and of the others. */
  function Line(pending: seq<PendingCall>, keep: nat, all: string, others: string): string
    requires keep <= |pending|
  {
    "⚠ " + all + " calls pending: " + Join(Entries(pending)[..keep])
    + if keep == |pending| then "" else " +" + others + " more"
  }

  function Packed(pending: seq<PendingCall>, keep: nat): string
    requires keep <= |pending|
  {
    Line(pending, keep, Decimal(|pending|), Decimal(|pending| - keep))
  }

  function OneCall(p: PendingCall): string {
    "⚠ " + p.toolName + " pending for " + p.elapsed + " — "
    + if p.userBlocking then "your input needed" else "check this tool"
  }

  predicate Fits(pending: seq<PendingCall>, width: nat, keep: nat)
    requires keep <= |pending|
  {
    |Packed(pending, keep)| <= width
  }

  function TakeUpTo(s: string, n: nat): string {
    if n < |s| then s[..n] else s
  }

  /** `keep` is the largest number of calls that fits, or 0 if none does. */
  ghost predicate IsBestFit(pending: seq<PendingCall>, width: nat, keep: nat) {
    && keep <= |pending|
    && (keep == 0 || Fits(pending, width, keep))
    && forall j | keep < j <= |pending| :: !Fits(pending, width, j)
  }

  /** The first `keep` calls, each with its elapsed time in brackets, with spaces between them. */
  function ShownCalls(pending: seq<PendingCall>, keep: nat): string {
    if keep == 0 || keep > |pending| then ""
    else
      var p := pending[keep - 1];
      ShownCalls(pending, keep - 1) + (if keep == 1 then "" else " ") + p.toolName + "(" + p.elapsed + ")"
  }

  lemma {:induction false} JoinPush(parts: seq<string>, part: string)
    ensures Join(parts + [part]) == Join(parts) + (if parts == [] then "" else " ") + part
  {
    if parts == [] {
      assert [] + [part] == [part];
    } else {
      assert (parts + [part])[0] == parts[0] && (parts + [part])[1..] == parts[1..] + [part];
      JoinPush(parts[1..], part);
    }
  }

  lemma {:induction false} JoinShows(pending: seq<PendingCall>, keep: nat)
    requires keep <= |pending|
    ensures Join(Entries(pending)[..keep]) == ShownCalls(pending, keep)
  {
    if keep > 0 {
      JoinShows(pending, keep - 1);
      var front, part := Entries(pending)[..keep - 1], Entries(pending)[keep - 1];
      assert Entries(pending)[..keep] == front + [part];
      JoinPush(front, part);
      var p := pending[keep - 1];
      Regroup(ShownCalls(pending, keep - 1) + (if keep == 1 then "" else " "), p.toolName, "(", p.elapsed, ")");
    }
  }

  lemma {:induction false} Regroup(a: string, b: string, c: string, d: string, e: string)
    ensures a + (b + c + d + e) == a + b + c + d + e
  {
  }

  /** `line` shows the most calls that fit, and its two counts read back as the number of all calls and of
    * those not shown; it is cut at the width. */
  ghost predicate ShowsBest(line: string, pending: seq<PendingCall>, width: nat) {
    exists keep, all, others :: Shows(line, pending, width, keep, all, others)
  }

  ghost predicate Shows(line: string, pending: seq<PendingCall>, width: nat, keep: nat, all: string, others: string) {
    && IsBestFit(pending, width, keep)
    && IsCount(all, |pending|) && IsCount(others, |pending| - keep)
    && line == TakeUpTo("⚠ " + all + " calls pending: " + ShownCalls(pending, keep)
                        + (if keep == |pending| then "" else " +" + others + " more"), width)
  }

  lemma {:induction false} LineShows(pending: seq<PendingCall>, keep: nat, all: string, others: string)
    requires keep <= |pending|
    ensures Line(pending, keep, all, others)
         == "⚠ " + all + " calls pending: " + ShownCalls(pending, keep)
            + (if keep == |pending| then "" else " +" + others + " more")
  {
    hide Join, Entries, ShownCalls;
    JoinShows(pending, keep);
  }

  lemma {:induction false} PackedShowsBest(pending: seq<PendingCall>, width: nat, keep: nat)
    requires IsBestFit(pending, width, keep)
    ensures ShowsBest(TakeUpTo(Packed(pending, keep), width), pending, width)
  {
    hide Decimal, Line, IsCount, IsBestFit, TakeUpTo, ShownCalls;
    BestFitBound(pending, width, keep);
    var all, others := Decimal(|pending|), Decimal(|pending| - keep);
    DecimalReads(|pending|);
    DecimalReads(|pending| - keep);
    LineShows(pending, keep, all, others);
    assert Shows(TakeUpTo(Packed(pending, keep), width), pending, width, keep, all, others);
  }

  lemma {:induction false} BestFitBound(pending: seq<PendingCall>, width: nat, keep: nat)
    requires IsBestFit(pending, width, keep)
    ensures keep <= |pending|
  {
  }

  method Assemble(pending: seq<PendingCall>, keep: nat) returns (line: string)
    requires keep <= |pending|
    ensures line == Packed(pending, keep)
  {
    hide Decimal, Join;
    var prefix := "⚠ " + Decimal(|pending|) + " calls pending: ";
    var dropped := |pending| - keep;
    var suffix := if dropped == 0 then "" else " +" + Decimal(dropped) + " more";
    line := prefix + Join(Entries(pending)[..keep]) + suffix;
  }

  method PackCalls(pending: seq<PendingCall>, maxWidth: nat) returns (line: string)
    ensures ShowsBest(line, pending, maxWidth)
  {
    hide Packed, ShowsBest;
    var keep: nat := |pending|;
    while true
      invariant keep <= |pending|
      invariant forall j | keep < j <= |pending| :: !Fits(pending, maxWidth, j)
      decreases keep
    {
      line := Assemble(pending, keep);
      if |line| <= maxWidth || keep == 0 {
        PackedShowsBest(pending, maxWidth, keep);
        return TakeUpTo(line, maxWidth);
      }
      keep := keep - 1;
    }
  }

  /** For two calls or more the banner shows as many as fit, and it is cut only if not even the bare count
    * fits. It is never wider than the screen. */
  method FormatPendingBanner(pending: seq<PendingCall>, maxWidth: nat) returns (line: string)
    ensures |line| <= maxWidth
    ensures pending == [] ==> line == ""
    ensures |pending| == 1 ==>
              line == TakeUpTo("⚠ " + pending[0].toolName + " pending for " + pending[0].elapsed + " — "
                               + (if pending[0].userBlocking then "your input needed" else "check this tool"), maxWidth)
    ensures |pending| >= 2 ==> ShowsBest(line, pending, maxWidth)
  {
    if pending == [] {
      return "";
    }
    if |pending| == 1 {
      return TakeUpTo(OneCall(pending[0]), maxWidth);
    }
    line := PackCalls(pending, maxWidth);
  }

  /** Showing fewer calls can take more room, because of the count of the others: searching from the
    * other end, or by bisection, would be wrong. */
  lemma FewerCanBeWider(a: PendingCall, b: PendingCall)
    requires |b.toolName| + |b.elapsed| <= 4
    ensures |Packed([a, b], 2)| < |Packed([a, b], 1)|
  {
    var es := Entries([a, b]);
    assert es == [Entry(a), Entry(b)];
    assert es[..2] == es && es[..1] == [Entry(a)] && es[1..] == [Entry(b)];
    assert Join(es) == Entry(a) + " " + Join(es[1..]);
    assert Join(es[..1]) == Entry(a);
    assert |" +" + Decimal(1) + " more"| >= 8;
  }
}
