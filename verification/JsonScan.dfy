/** The brace-balancing scanner that finds the last JSON object in free text
    (json_answer_reward.py). `json.loads` is a parameter that says, for a text,
    whether it is a dict, some other JSON value, or not JSON. */
module JsonScan {
  import opened Prelude

  datatype Loaded<+V> = Dict(value: V) | Other | Invalid

  /** The scanner's `depth`, `in_str`, `esc`; `Closed` once the depth is back to zero. */
  datatype State = Out(depth: int) | InStr(depth: int) | Esc(depth: int) | Closed

  function Step(st: State, ch: char): State {
    match st
    case Closed => Closed
    case Esc(d) => InStr(d)
    case InStr(d) => if ch == '\\' then Esc(d) else if ch == '"' then Out(d) else st
    case Out(d) =>
      if ch == '"' then InStr(d)
      else if ch == '{' then Out(d + 1)
      else if ch == '}' then (if d == 1 then Closed else Out(d - 1))
      else st
  }

  function Run(t: string, st: State): State {
    if t == [] then st else Run(t[1..], Step(st, t[0]))
  }

  /** Where a scan that is in state `st` before position `k` closes. */
  function CloseFrom(s: string, k: nat, st: State): (r: Option<nat>)
    requires k <= |s|
    ensures r.Some? ==> k <= r.value < |s|
    decreases |s| - k
  {
    if k == |s| then None
    else
      var next := Step(st, s[k]);
      if next.Closed? then Some(k) else CloseFrom(s, k + 1, next)
  }

  /** What a scan from `p` yields when its balanced text is a dict. */
  function Accept<V>(s: string, p: nat, loads: string -> Loaded<V>): (r: Option<(V, nat)>)
    requires p < |s|
    ensures r.Some? ==> p <= r.value.1 < |s|
  {
    match CloseFrom(s, p, Out(0))
    case None => None
    case Some(e) =>
      match loads(s[p..e + 1])
      case Dict(v) => Some((v, e))
      case _ => None
  }

  /** The last object the left-to-right search accepts at or after `i`. */
  function LastFrom<V>(s: string, i: nat, loads: string -> Loaded<V>): (r: Option<(V, nat)>)
    requires i <= |s|
    ensures r.Some? ==> i <= r.value.1 < |s|
    decreases |s| - i
  {
    if i == |s| then None
    else if s[i] != '{' then LastFrom(s, i + 1, loads)
    else
      match Accept(s, i, loads)
      case None => LastFrom(s, i + 1, loads)
      case Some((v, e)) =>
        var later := LastFrom(s, e + 1, loads);
        if later.Some? then later else Some((v, e))
  }

  // ---------------------------------------------------------------- the two loops

  method ScanBalancedJson<V>(s: string, start: nat, loads: string -> Loaded<V>)
    returns (obj: Option<V>, end: nat)
    requires start < |s| && s[start] == '{'
    ensures start <= end < |s|
    ensures obj.Some? <==> Accept(s, start, loads).Some?
    ensures obj.Some? ==> Accept(s, start, loads) == Some((obj.value, end))
    ensures CloseFrom(s, start, Out(0)).Some? ==> CloseFrom(s, start, Out(0)) == Some(end)
    ensures CloseFrom(s, start, Out(0)).None? ==> end == |s| - 1
  {
    var depth, inStr, esc, k := 0, false, false, start;
    while k < |s|
      invariant start <= k <= |s|
      invariant esc ==> inStr
      invariant CloseFrom(s, start, Out(0))
             == CloseFrom(s, k, if esc then Esc(depth) else if inStr then InStr(depth) else Out(depth))
    {
      var ch := s[k];
      if inStr {
        if esc {
          esc := false;
        } else if ch == '\\' {
          esc := true;
        } else if ch == '"' {
          inStr := false;
        }
      } else {
        if ch == '"' {
          inStr := true;
        } else if ch == '{' {
          depth := depth + 1;
        } else if ch == '}' {
          depth := depth - 1;
          if depth == 0 {
            match loads(s[start..k + 1]) {
              case Dict(v) => return Some(v), k;
              case _ => return None, k;
            }
          }
        }
      }
      k := k + 1;
    }
    return None, |s| - 1;
  }

  method ExtractLastJsonObj<V>(s: string, loads: string -> Loaded<V>) returns (best: Option<V>)
    ensures best.Some? <==> LastFrom(s, 0, loads).Some?
    ensures best.Some? ==> best.value == LastFrom(s, 0, loads).value.0
  {
    best := None;
    if s == [] {
      return;
    }
    var bestEnd := -1;
    var i := 0;
    while i < |s|
      invariant 0 <= i <= |s|
      invariant -1 <= bestEnd < i
      invariant best.Some? <==> bestEnd >= 0
      invariant LastFrom(s, 0, loads)
             == if LastFrom(s, i, loads).Some? then LastFrom(s, i, loads)
                else if best.Some? then Some((best.value, bestEnd as nat)) else None
      decreases |s| - i
    {
      if s[i] != '{' {
        i := i + 1;
        continue;
      }
      var obj, end := ScanBalancedJson(s, i, loads);
      if obj.Some? {
        if end > bestEnd {
          best, bestEnd := obj, end;
        }
        i := end + 1;
      } else {
        i := i + 1;
      }
    }
  }

  // ---------------------------------------------------------------- running over text

  lemma {:induction false} RunAppend(a: string, b: string, st: State)
    ensures Run(a + b, st) == Run(b, Run(a, st))
  {
    if a == [] {
      assert a + b == b;
    } else {
      assert (a + b)[1..] == a[1..] + b;
      RunAppend(a[1..], b, Step(st, a[0]));
    }
  }

  lemma {:induction false} RunClosed(t: string)
    ensures Run(t, Closed) == Closed
  {
    if t != [] {
      RunClosed(t[1..]);
    }
  }

  /** A stretch of text after which the scan is still open moves the scan past it. */
  lemma {:induction false} SkipText(s: string, k: nat, t: string, st: State)
    requires k + |t| <= |s| && s[k..k + |t|] == t
    requires !Run(t, st).Closed?
    ensures CloseFrom(s, k, st) == CloseFrom(s, k + |t|, Run(t, st))
    decreases |t|
  {
    if t != [] {
      assert s[k] == t[0];
      if Step(st, s[k]).Closed? {
        RunClosed(t[1..]);
        assert false;
      }
      assert s[k + 1..k + 1 + |t[1..]|] == t[1..];
      SkipText(s, k + 1, t[1..], Step(st, s[k]));
    }
  }

  // ---------------------------------------------------------------- RFC 8259 texts

  /** A character of a JSON string: bare, backslash-escaped, or a \u escape. */
  datatype StrChar = Bare(c: char) | Escaped(c: char) | Hex(digits: string)

  /** A JSON text as the grammar builds it: literals and numbers are `Token`s,
      and every place where white space may stand holds some. */
  datatype Json =
    | Token(text: string)
    | Str(chars: seq<StrChar>)
    | Arr(blank: string, items: seq<Item>)
    | Obj(blank: string, members: seq<Member>)
  datatype Item = Item(lead: string, value: Json, trail: string)
  datatype Member = Member(lead: string, key: seq<StrChar>, mid: string, lead2: string, value: Json, trail: string)

  predicate Blank(w: string) {
    forall i :: 0 <= i < |w| ==> w[i] in " \t\n\r"
  }

  /** No quote and no brace: true of numbers, of true/false/null and of brace-free prose. */
  predicate Plain(t: string) {
    forall i :: 0 <= i < |t| ==> t[i] != '"' && t[i] != '{' && t[i] != '}'
  }

  predicate GoodChar(x: StrChar) {
    match x
    case Bare(c) => c != '"' && c != '\\' && c >= ' '
    case Escaped(c) => c in "\"\\/bfnrt"
    case Hex(h) => |h| == 4 && forall c :: c in h ==> c in "0123456789abcdefABCDEF"
  }

  predicate GoodChars(xs: seq<StrChar>) {
    forall i :: 0 <= i < |xs| ==> GoodChar(xs[i])
  }

  predicate WellFormed(j: Json) {
    match j
    case Token(t) => t != [] && Plain(t)
    case Str(xs) => GoodChars(xs)
    case Arr(b, items) =>
      Blank(b) && forall i :: 0 <= i < |items| ==>
        Blank(items[i].lead) && WellFormed(items[i].value) && Blank(items[i].trail)
    case Obj(b, ms) =>
      Blank(b) && forall i :: 0 <= i < |ms| ==>
        Blank(ms[i].lead) && GoodChars(ms[i].key) && Blank(ms[i].mid) && Blank(ms[i].lead2)
        && WellFormed(ms[i].value) && Blank(ms[i].trail)
  }

  function CharText(x: StrChar): string {
    match x
    case Bare(c) => [c]
    case Escaped(c) => ['\\', c]
    case Hex(h) => ['\\', 'u'] + h
  }

  function CharsText(xs: seq<StrChar>): string {
    if xs == [] then [] else CharText(xs[0]) + CharsText(xs[1..])
  }

  function Quoted(xs: seq<StrChar>): string {
    ['"'] + CharsText(xs) + ['"']
  }

  function Width(j: Json): nat {
    match j
    case Arr(_, items) => |items|
    case Obj(_, ms) => |ms|
    case _ => 0
  }

  function Text(j: Json): string
    decreases j, Width(j) + 2
  {
    match j
    case Token(t) => t
    case Str(xs) => Quoted(xs)
    case Arr(b, items) => ['['] + (b + ItemsText(j, items)) + [']']
    case Obj(b, ms) => ['{'] + (b + MembersText(j, ms)) + ['}']
  }

  function ItemsText(whole: Json, items: seq<Item>): string
    requires forall x :: x in items ==> x.value < whole
    decreases whole, |items| + 1
  {
    if items == [] then []
    else
      items[0].lead + (Text(items[0].value) + (items[0].trail
        + ((if |items| == 1 then [] else [',']) + ItemsText(whole, items[1..]))))
  }

  function MembersText(whole: Json, ms: seq<Member>): string
    requires forall x :: x in ms ==> x.value < whole
    decreases whole, |ms| + 1
  {
    if ms == [] then []
    else MemberText(whole, ms[0]) + (if |ms| == 1 then [] else [',']) + MembersText(whole, ms[1..])
  }

  function MemberText(whole: Json, m: Member): string
    requires m.value < whole
    decreases whole, 0
  {
    KeyText(m) + (Text(m.value) + m.trail)
  }

  /** The key, and the colon with the blanks around it. */
  function KeyText(m: Member): string {
    m.lead + (Quoted(m.key) + (m.mid + [':'] + m.lead2))
  }

  lemma {:induction false} RunPlain(t: string, d: int)
    requires Plain(t)
    ensures Neutral(t, d)
  {
    if t != [] {
      RunPlain(t[1..], d);
    }
  }

  lemma {:induction false} RunHexDigits(h: string, d: int)
    requires forall c :: c in h ==> c in "0123456789abcdefABCDEF"
    ensures Run(h, InStr(d)) == InStr(d)
  {
    if h != [] {
      assert h[0] in h;
      RunHexDigits(h[1..], d);
    }
  }

  lemma {:induction false} RunChar(x: StrChar, d: int)
    requires GoodChar(x)
    ensures Run(CharText(x), InStr(d)) == InStr(d)
  {
    match x
    case Bare(c) => RunOne(c, InStr(d));
    case Escaped(c) =>
      RunAppend(['\\'], [c], InStr(d));
      RunOne('\\', InStr(d));
      RunOne(c, Esc(d));
      assert ['\\'] + [c] == ['\\', c];
    case Hex(h) =>
      assert (['\\', 'u'] + h)[1..] == ['u'] + h;
      assert (['u'] + h)[1..] == h;
      RunHexDigits(h, d);
  }

  lemma {:induction false} RunChars(xs: seq<StrChar>, d: int)
    requires GoodChars(xs)
    ensures Run(CharsText(xs), InStr(d)) == InStr(d)
  {
    if xs != [] {
      RunChar(xs[0], d);
      RunAppend(CharText(xs[0]), CharsText(xs[1..]), InStr(d));
      RunChars(xs[1..], d);
    }
  }

  lemma {:induction false} RunOne(c: char, st: State)
    ensures Run([c], st) == Step(st, c)
  {
    assert [c][1..] == [];
    assert Run([], Step(st, c)) == Step(st, c);
  }

  /** Whatever braces, quotes and backslashes a string holds, its text leaves the depth alone. */
  lemma {:induction false} RunQuoted(xs: seq<StrChar>, d: int)
    requires GoodChars(xs)
    ensures Neutral(Quoted(xs), d)
  {
    RunAppend(['"'] + CharsText(xs), ['"'], Out(d));
    RunAppend(['"'], CharsText(xs), Out(d));
    RunOne('"', Out(d));
    RunChars(xs, d);
    RunOne('"', InStr(d));
  }

  /** The text leaves a scan at depth `d` where it was. */
  predicate Neutral(t: string, d: int) {
    Run(t, Out(d)) == Out(d)
  }

  lemma {:induction false} NeutralConcat(a: string, b: string, d: int)
    requires Neutral(a, d) && Neutral(b, d)
    ensures Neutral(a + b, d)
  {
    RunAppend(a, b, Out(d));
  }

  lemma {:induction false} NeutralThree(a: string, b: string, c: string, d: int)
    requires Neutral(a, d) && Neutral(b, d) && Neutral(c, d)
    ensures Neutral(a + (b + c), d)
  {
    NeutralConcat(b, c, d);
    NeutralConcat(a, b + c, d);
  }

  /** Opening and closing one level around a text neutral one level deeper. */
  lemma {:induction false} Opened(t: string, d: int)
    requires Neutral(t, d + 1)
    ensures Run(['{'] + t, Out(d)) == Out(d + 1)
  {
    RunAppend(['{'], t, Out(d));
    RunOne('{', Out(d));
  }

  /** Inside an open object every JSON text is neutral: same depth before and after, never closed. */
  lemma {:induction false} RunText(j: Json, d: int)
    requires WellFormed(j) && d >= 1
    ensures Neutral(Text(j), d)
    decreases j, Width(j) + 3
  {
    match j
    case Token(t) => RunPlain(t, d);
    case Str(xs) => RunQuoted(xs, d);
    case Arr(b, items) =>
      RunPlain(['['], d);
      RunPlain(b, d);
      RunItems(j, items, d);
      RunPlain([']'], d);
      NeutralThree(['['], b, ItemsText(j, items), d);
      NeutralConcat(['['] + (b + ItemsText(j, items)), [']'], d);
    case Obj(b, ms) =>
      RunBody(j, d);
      RunAppend(['{'] + (b + MembersText(j, ms)), ['}'], Out(d));
      RunOne('}', Out(d + 1));
  }

  /** An object's text up to its last brace opens exactly one level. */
  lemma {:induction false} RunBody(j: Json, d: int)
    requires j.Obj? && WellFormed(j) && d >= 0
    ensures Run(['{'] + (j.blank + MembersText(j, j.members)), Out(d)) == Out(d + 1)
    decreases j, Width(j) + 2
  {
    RunPlain(j.blank, d + 1);
    RunMembers(j, j.members, d + 1);
    NeutralConcat(j.blank, MembersText(j, j.members), d + 1);
    Opened(j.blank + MembersText(j, j.members), d);
  }

  lemma {:induction false} RunItems(whole: Json, items: seq<Item>, d: int)
    requires forall x :: x in items ==> x.value < whole
    requires d >= 1
    requires forall i :: 0 <= i < |items| ==>
      Blank(items[i].lead) && WellFormed(items[i].value) && Blank(items[i].trail)
    ensures Neutral(ItemsText(whole, items), d)
    decreases whole, |items| + 1
  {
    if items == [] {
      RunPlain([], d);
    } else {
      var x := items[0];
      var sep := if |items| == 1 then [] else [','];
      RunPlain(x.lead, d);
      RunText(x.value, d);
      RunPlain(x.trail, d);
      RunPlain(sep, d);
      RunItems(whole, items[1..], d);
      NeutralThree(x.trail, sep, ItemsText(whole, items[1..]), d);
      NeutralThree(x.lead, Text(x.value), x.trail + (sep + ItemsText(whole, items[1..])), d);
    }
  }

  lemma {:induction false} RunMembers(whole: Json, ms: seq<Member>, d: int)
    requires forall x :: x in ms ==> x.value < whole
    requires d >= 1
    requires forall i :: 0 <= i < |ms| ==>
        Blank(ms[i].lead) && GoodChars(ms[i].key) && Blank(ms[i].mid) && Blank(ms[i].lead2)
        && WellFormed(ms[i].value) && Blank(ms[i].trail)
    ensures Neutral(MembersText(whole, ms), d)
    decreases whole, |ms| + 1
  {
    if ms == [] {
      RunPlain([], d);
    } else {
      var sep := if |ms| == 1 then [] else [','];
      RunMember(whole, ms[0], d);
      RunPlain(sep, d);
      RunMembers(whole, ms[1..], d);
      NeutralConcat(MemberText(whole, ms[0]), sep, d);
      NeutralConcat(MemberText(whole, ms[0]) + sep, MembersText(whole, ms[1..]), d);
    }
  }

  lemma {:induction false} RunMember(whole: Json, m: Member, d: int)
    requires m.value < whole && d >= 1
    requires Blank(m.lead) && GoodChars(m.key) && Blank(m.mid) && Blank(m.lead2)
    requires WellFormed(m.value) && Blank(m.trail)
    ensures Neutral(MemberText(whole, m), d)
    decreases whole, 0
  {
    RunKey(m, d);
    RunText(m.value, d);
    RunPlain(m.trail, d);
    NeutralConcat(Text(m.value), m.trail, d);
    NeutralConcat(KeyText(m), Text(m.value) + m.trail, d);
  }

  lemma {:induction false} RunKey(m: Member, d: int)
    requires Blank(m.lead) && GoodChars(m.key) && Blank(m.mid) && Blank(m.lead2)
    ensures Neutral(KeyText(m), d)
  {
    RunPlain(m.lead, d);
    RunQuoted(m.key, d);
    RunPlain(m.mid + [':'] + m.lead2, d);
    NeutralThree(m.lead, Quoted(m.key), m.mid + [':'] + m.lead2, d);
  }

  // ---------------------------------------------------------------- exact recovery

  /** A text that opens with a brace and closes only with its own last character. */
  predicate SelfClosing(t: string) {
    |t| >= 2 && t[0] == '{' && t[|t| - 1] == '}' && Run(t[..|t| - 1], Out(0)) == Out(1)
  }

  /** Every object text of the grammar is such a text, whatever its strings hold. */
  lemma {:induction false} ObjectIsSelfClosing(j: Json)
    requires j.Obj? && WellFormed(j)
    ensures SelfClosing(Text(j))
  {
    var body := ['{'] + (j.blank + MembersText(j, j.members));
    assert Text(j) == body + ['}'] && Text(j)[..|Text(j)| - 1] == body;
    RunBody(j, 0);
  }

  /** A scan started at such a text closes at its last brace, whatever follows. */
  lemma {:induction false} ScanClosesText(s: string, p: nat, t: string)
    requires SelfClosing(t) && p + |t| <= |s| && s[p..p + |t|] == t
    ensures CloseFrom(s, p, Out(0)) == Some(p + |t| - 1)
  {
    var n := |t| - 1;
    assert s[p..p + n] == t[..n] && s[p + n] == t[n];
    SkipText(s, p, t[..n], Out(0));
  }

  predicate NoOpenBrace(t: string) {
    forall i :: 0 <= i < |t| ==> t[i] != '{'
  }

  lemma {:induction false} SkipProse<V>(s: string, i: nat, n: nat, loads: string -> Loaded<V>)
    requires i + n <= |s| && NoOpenBrace(s[i..i + n])
    ensures LastFrom(s, i, loads) == LastFrom(s, i + n, loads)
    decreases n
  {
    if n > 0 {
      assert s[i] == s[i..i + n][0];
      assert s[i + 1..i + 1 + (n - 1)] == s[i..i + n][1..];
      SkipProse(s, i + 1, n - 1, loads);
    }
  }

  /** One dict at `p`: the search takes it and goes on right behind it. */
  lemma {:induction false} TakeText<V>(s: string, p: nat, t: string, loads: string -> Loaded<V>)
    requires SelfClosing(t) && loads(t).Dict? && p + |t| <= |s| && s[p..p + |t|] == t
    ensures LastFrom(s, p, loads)
         == if LastFrom(s, p + |t|, loads).Some? then LastFrom(s, p + |t|, loads)
            else Some((loads(t).value, p + |t| - 1))
  {
    ScanClosesText(s, p, t);
    assert s[p] == t[0];
    assert s[p..p + |t| - 1 + 1] == t;
  }

  lemma {:induction false} SkipGap<V>(s: string, p: nat, gap: string, rest: string, loads: string -> Loaded<V>)
    requires p <= |s| && s[p..] == gap + rest && NoOpenBrace(gap)
    ensures p + |gap| <= |s| && s[p + |gap|..] == rest
    ensures LastFrom(s, p, loads) == LastFrom(s, p + |gap|, loads)
  {
    SliceOfTail(s, p, gap, rest);
    SkipProse(s, p, |gap|, loads);
  }

  lemma {:induction false} TakeNext<V>(s: string, p: nat, t: string, rest: string, loads: string -> Loaded<V>)
    requires p <= |s| && s[p..] == t + rest && SelfClosing(t) && loads(t).Dict?
    ensures p + |t| <= |s| && s[p + |t|..] == rest
    ensures LastFrom(s, p, loads)
         == if LastFrom(s, p + |t|, loads).Some? then LastFrom(s, p + |t|, loads)
            else Some((loads(t).value, p + |t| - 1))
  {
    SliceOfTail(s, p, t, rest);
    TakeText(s, p, t, loads);
  }

  lemma {:induction false} SliceOfTail(s: string, p: nat, a: string, b: string)
    requires p <= |s| && s[p..] == a + b
    ensures p + |a| <= |s| && s[p..p + |a|] == a && s[p + |a|..] == b
  {
    assert s[p..][..|a|] == a && s[p..][|a|..] == b;
  }

  /** Free text: prose, or prose, an object, and more free text. */
  datatype FreeText = Prose(gap: string) | Holding(gap: string, obj: Json, rest: FreeText)

  function Render(x: FreeText): string {
    match x
    case Prose(gap) => gap
    case Holding(gap, obj, rest) => gap + (Text(obj) + Render(rest))
  }

  /** No prose holds a `{`, every object is well formed and loads as a dict. */
  ghost predicate GoodText<V>(x: FreeText, loads: string -> Loaded<V>) {
    match x
    case Prose(gap) => NoOpenBrace(gap)
    case Holding(gap, obj, rest) =>
      NoOpenBrace(gap) && obj.Obj? && WellFormed(obj) && loads(Text(obj)).Dict? && GoodText(rest, loads)
  }

  /** What the last object of the text loads as. */
  ghost function LastValue<V>(x: FreeText, loads: string -> Loaded<V>): Option<V>
    requires GoodText(x, loads)
  {
    match x
    case Prose(_) => None
    case Holding(_, obj, rest) => if rest.Holding? then LastValue(rest, loads) else Some(loads(Text(obj)).value)
  }

  function ValueOf<V>(r: Option<(V, nat)>): Option<V> {
    if r.Some? then Some(r.value.0) else None
  }

  /** One gap and one object further, the search stands where the rest of the text starts. */
  lemma {:induction false} GapThenObject<V>(s: string, p: nat, gap: string, t: string, rest: string,
                                            loads: string -> Loaded<V>) returns (q: nat)
    requires p <= |s| && s[p..] == gap + (t + rest) && NoOpenBrace(gap)
    requires SelfClosing(t) && loads(t).Dict?
    ensures q <= |s| && s[q..] == rest
    ensures LastFrom(s, p, loads).Some?
    ensures ValueOf(LastFrom(s, p, loads))
         == if LastFrom(s, q, loads).Some? then ValueOf(LastFrom(s, q, loads)) else Some(loads(t).value)
  {
    var start := p + |gap|;
    SkipGap(s, p, gap, t + rest, loads);
    TakeNext(s, start, t, rest, loads);
    q := start + |t|;
  }

  /** From a position where such a text starts, the search returns what its last object loads as. */
  lemma {:induction false} SeriesFrom<V>(s: string, p: nat, x: FreeText, loads: string -> Loaded<V>)
    requires p <= |s| && s[p..] == Render(x) && GoodText(x, loads)
    ensures ValueOf(LastFrom(s, p, loads)) == LastValue(x, loads)
    ensures x.Holding? <==> LastFrom(s, p, loads).Some?
    decreases x
  {
    match x
    case Prose(gap) =>
      SkipProse(s, p, |gap|, loads);
    case Holding(gap, obj, rest) =>
      ObjectIsSelfClosing(obj);
      var q := GapThenObject(s, p, gap, Text(obj), Render(rest), loads);
      SeriesFrom(s, q, rest, loads);
  }

  /** A series of JSON objects in prose without `{` yields exactly the last one, whatever braces,
      quotes and backslashes the strings of the objects hold; and prose alone yields nothing. */
  lemma {:induction false} SeriesYieldsLast<V>(x: FreeText, loads: string -> Loaded<V>)
    requires GoodText(x, loads)
    ensures ValueOf(LastFrom(Render(x), 0, loads)) == LastValue(x, loads)
  {
    SeriesFrom(Render(x), 0, x, loads);
  }

  // ---------------------------------------------------------------- skipping loses nothing structural

  /** Same mode, and the outer scan is `c` levels deeper. */
  ghost predicate InStep(inner: State, outer: State, c: int) {
    match inner
    case Out(d) => d >= 1 && outer == Out(d + c)
    case InStr(d) => d >= 1 && outer == InStr(d + c)
    case Esc(d) => d >= 1 && outer == Esc(d + c)
    case Closed => false
  }

  /** Two scans in step stay in step until the inner one closes, strictly before the outer one. */
  lemma {:induction false} Lockstep(s: string, k: nat, inner: State, outer: State, c: int)
    requires k <= |s| && c >= 1 && InStep(inner, outer, c)
    requires CloseFrom(s, k, outer).Some?
    ensures CloseFrom(s, k, inner).Some?
    ensures CloseFrom(s, k, inner).value < CloseFrom(s, k, outer).value
    decreases |s| - k
  {
    var i2, o2 := Step(inner, s[k]), Step(outer, s[k]);
    if !i2.Closed? {
      Lockstep(s, k + 1, i2, o2, c);
    }
  }

  /** The outer scan's state just before position `q`. */
  function Before(s: string, a: nat, q: nat): State
    requires a <= q <= |s|
  {
    Run(s[a..q], Out(0))
  }

  lemma {:induction false} CloseIsFirst(s: string, k: nat, st: State, q: nat)
    requires k <= q <= |s| && !st.Closed?
    requires CloseFrom(s, k, st).Some? && q <= CloseFrom(s, k, st).value
    ensures !Run(s[k..q], st).Closed?
    ensures CloseFrom(s, k, st) == CloseFrom(s, q, Run(s[k..q], st))
    decreases q - k
  {
    if k < q {
      assert s[k..q][1..] == s[k + 1..q];
      CloseIsFirst(s, k + 1, Step(st, s[k]), q);
    }
  }

  lemma {:induction false} DepthStaysPositive(s: string, k: nat, st: State, q: nat)
    requires k <= q <= |s| && !st.Closed? && st.depth >= 1
    requires !Run(s[k..q], st).Closed?
    ensures Run(s[k..q], st).depth >= 1
    decreases q - k
  {
    if k < q {
      assert s[k..q][1..] == s[k + 1..q];
      if Step(st, s[k]).Closed? {
        RunClosed(s[k + 1..q]);
        assert false;
      }
      DepthStaysPositive(s, k + 1, Step(st, s[k]), q);
    }
  }

  /** `q` holds a `{` of the object scanned from `a`, and it is not inside one of its strings. */
  predicate Structural(s: string, a: nat, q: nat)
    requires a < q < |s|
  {
    s[q] == '{' && Before(s, a, q).Out?
  }

  /** A scan from an inner structural brace closes, and strictly earlier than the outer scan. */
  lemma {:induction false} InnerClosesEarlier(s: string, a: nat, q: nat)
    requires a < q < |s| && s[a] == '{' && Structural(s, a, q)
    requires CloseFrom(s, a, Out(0)).Some? && q <= CloseFrom(s, a, Out(0)).value
    ensures CloseFrom(s, q, Out(0)).Some?
    ensures CloseFrom(s, q, Out(0)).value < CloseFrom(s, a, Out(0)).value
  {
    CloseIsFirst(s, a, Out(0), q);
    assert s[a..q][1..] == s[a + 1..q];
    DepthStaysPositive(s, a + 1, Out(1), q);
    var d := Before(s, a, q).depth;
    assert Step(Out(0), s[q]) == Out(1) && Step(Out(d), s[q]) == Out(d + 1);
    Lockstep(s, q + 1, Out(1), Out(d + 1), d);
  }

  /** The start positions the search accepts, left to right. */
  function AcceptedStarts<V>(s: string, i: nat, loads: string -> Loaded<V>): seq<nat>
    requires i <= |s|
    decreases |s| - i
  {
    if i == |s| then []
    else if s[i] == '{' && Accept(s, i, loads).Some?
    then [i] + AcceptedStarts(s, Accept(s, i, loads).value.1 + 1, loads)
    else AcceptedStarts(s, i + 1, loads)
  }

  /** Each accepted span starts at a brace, at or after `i`, and ends before the next one starts. */
  ghost predicate SpansInOrder<V>(s: string, i: nat, starts: seq<nat>, loads: string -> Loaded<V>)
    decreases |starts|
  {
    starts == [] ||
    (i <= starts[0] < |s| && s[starts[0]] == '{' && Accept(s, starts[0], loads).Some?
     && SpansInOrder(s, Accept(s, starts[0], loads).value.1 + 1, starts[1..], loads))
  }

  lemma {:induction false} SpansStartLater<V>(s: string, i: nat, j: nat, starts: seq<nat>, loads: string -> Loaded<V>)
    requires i <= j && SpansInOrder(s, j, starts, loads)
    ensures SpansInOrder(s, i, starts, loads)
  {
  }

  /** The accepted spans are disjoint and in order. */
  lemma {:induction false} AcceptedSpansInOrder<V>(s: string, i: nat, loads: string -> Loaded<V>)
    requires i <= |s|
    ensures SpansInOrder(s, i, AcceptedStarts(s, i, loads), loads)
    decreases |s| - i
  {
    if i < |s| {
      if s[i] == '{' && Accept(s, i, loads).Some? {
        var e := Accept(s, i, loads).value.1;
        AcceptedSpansInOrder(s, e + 1, loads);
        assert AcceptedStarts(s, i, loads)[1..] == AcceptedStarts(s, e + 1, loads);
      } else {
        AcceptedSpansInOrder(s, i + 1, loads);
        SpansStartLater(s, i, i + 1, AcceptedStarts(s, i + 1, loads), loads);
      }
    }
  }

  function LastOf(starts: seq<nat>): nat
    requires starts != []
  {
    if |starts| == 1 then starts[0] else LastOf(starts[1..])
  }

  /** The result is what the last accepted start yields. */
  lemma {:induction false} LastAcceptedIsResult<V>(s: string, i: nat, loads: string -> Loaded<V>)
    requires i <= |s|
    ensures AcceptedStarts(s, i, loads) == [] <==> LastFrom(s, i, loads).None?
    ensures AcceptedStarts(s, i, loads) != [] ==>
      LastOf(AcceptedStarts(s, i, loads)) < |s|
      && LastFrom(s, i, loads) == Accept(s, LastOf(AcceptedStarts(s, i, loads)), loads)
    decreases |s| - i
  {
    if i < |s| {
      if s[i] == '{' && Accept(s, i, loads).Some? {
        var tail := AcceptedStarts(s, Accept(s, i, loads).value.1 + 1, loads);
        LastAcceptedIsResult(s, Accept(s, i, loads).value.1 + 1, loads);
        assert ([i] + tail)[1..] == tail;
      } else {
        LastAcceptedIsResult(s, i + 1, loads);
      }
    }
  }

  /** So the ends of accepted spans strictly increase. */
  lemma {:induction false} AcceptedEndsIncrease<V>(s: string, i: nat, starts: seq<nat>, x: nat, y: nat,
        loads: string -> Loaded<V>)
    requires SpansInOrder(s, i, starts, loads) && x < y < |starts|
    ensures starts[x] < |s| && starts[y] < |s|
    ensures Accept(s, starts[x], loads).Some? && Accept(s, starts[y], loads).Some?
    ensures Accept(s, starts[x], loads).value.1 < starts[y] <= Accept(s, starts[y], loads).value.1
    decreases |starts|
  {
    var e := Accept(s, starts[0], loads).value.1 + 1;
    if x > 0 {
      AcceptedEndsIncrease(s, e, starts[1..], x - 1, y - 1, loads);
    } else if y > 1 {
      AcceptedEndsIncrease(s, e, starts[1..], 0, y - 1, loads);
    }
  }

  /** `q` lies in a string literal of the object accepted at `a`. */
  predicate Hides<V>(s: string, a: nat, q: nat, loads: string -> Loaded<V>) {
    a < q < |s| && Accept(s, a, loads).Some? && q <= Accept(s, a, loads).value.1 && !Before(s, a, q).Out?
  }

  /** `q` lies in a string literal of an object the search accepted and skipped over. */
  ghost predicate HiddenInString<V>(s: string, i: nat, q: nat, loads: string -> Loaded<V>)
    requires i <= |s|
  {
    exists a :: a in AcceptedStarts(s, i, loads) && Hides(s, a, q, loads)
  }

  /** A visible brace inside the span accepted at `i` ends no later than that span. */
  lemma {:induction false} AcceptedInside<V>(s: string, i: nat, q: nat, loads: string -> Loaded<V>)
    requires i <= q < |s| && s[i] == '{' && Accept(s, i, loads).Some? && q <= Accept(s, i, loads).value.1
    requires s[q] == '{' && Accept(s, q, loads).Some? && !HiddenInString(s, i, q, loads)
    ensures Accept(s, q, loads).value.1 <= Accept(s, i, loads).value.1
  {
    if q > i {
      assert i in AcceptedStarts(s, i, loads);
      assert Before(s, i, q).Out?;
      InnerClosesEarlier(s, i, q);
    }
  }

  /** From an accepted brace the search goes on behind its object. */
  lemma {:induction false} FromAccepted<V>(s: string, i: nat, loads: string -> Loaded<V>)
    requires i < |s| && s[i] == '{' && Accept(s, i, loads).Some?
    ensures var e := Accept(s, i, loads).value.1;
      && AcceptedStarts(s, i, loads) == [i] + AcceptedStarts(s, e + 1, loads)
      && LastFrom(s, i, loads).Some? && e <= LastFrom(s, i, loads).value.1
      && (LastFrom(s, e + 1, loads).Some? ==> LastFrom(s, i, loads) == LastFrom(s, e + 1, loads))
  {
  }

  /** Every `{` that starts a dict ends no later than the result, unless a string hides it. */
  lemma {:induction false} LatestAmongStructural<V>(s: string, i: nat, q: nat, loads: string -> Loaded<V>)
    requires i <= q < |s| && s[q] == '{' && Accept(s, q, loads).Some?
    requires !HiddenInString(s, i, q, loads)
    ensures LastFrom(s, i, loads).Some?
    ensures Accept(s, q, loads).value.1 <= LastFrom(s, i, loads).value.1
    decreases |s| - i
  {
    if s[i] == '{' && Accept(s, i, loads).Some? {
      FromAccepted(s, i, loads);
      var e := Accept(s, i, loads).value.1;
      if q > e {
        StillVisible(s, i, e + 1, q, loads);
        LatestAmongStructural(s, e + 1, q, loads);
      } else {
        AcceptedInside(s, i, q, loads);
      }
    } else {
      assert AcceptedStarts(s, i, loads) == AcceptedStarts(s, i + 1, loads);
      StillVisible(s, i, i + 1, q, loads);
      LatestAmongStructural(s, i + 1, q, loads);
    }
  }

  lemma {:induction false} StillVisible<V>(s: string, i: nat, j: nat, q: nat, loads: string -> Loaded<V>)
    requires i <= |s| && j <= |s| && !HiddenInString(s, i, q, loads)
    requires forall a :: a in AcceptedStarts(s, j, loads) ==> a in AcceptedStarts(s, i, loads)
    ensures !HiddenInString(s, j, q, loads)
  {
  }

  /** The documented promise: of all `{` that start a dict, the result is one that ends last. */
  ghost predicate LatestOfAll<V>(s: string, loads: string -> Loaded<V>) {
    forall q :: 0 <= q < |s| && s[q] == '{' && Accept(s, q, loads).Some? ==>
      LastFrom(s, 0, loads).Some? && Accept(s, q, loads).value.1 <= LastFrom(s, 0, loads).value.1
  }

  /** A dict that starts at a brace hidden by the accepted object `a` ends by the end of the last
      accepted object. */
  ghost predicate HiddenDictEndsInTime<V>(s: string, a: nat, q: nat, loads: string -> Loaded<V>) {
    var starts := AcceptedStarts(s, 0, loads);
    a in starts && Hides(s, a, q, loads) && s[q] == '{' && Accept(s, q, loads).Some? ==>
      LastOf(starts) < |s| && Accept(s, LastOf(starts), loads).Some?
      && Accept(s, q, loads).value.1 <= Accept(s, LastOf(starts), loads).value.1
  }

  /** The promise holds exactly when every dict that starts inside a string of an accepted object
      ends by the end of the last accepted object. */
  lemma {:induction false} LatestOfAllIff<V>(s: string, loads: string -> Loaded<V>)
    ensures LatestOfAll(s, loads) <==> forall a, q :: HiddenDictEndsInTime(s, a, q, loads)
  {
    LastAcceptedIsResult(s, 0, loads);
    if forall a, q :: HiddenDictEndsInTime(s, a, q, loads) {
      forall q | 0 <= q < |s| && s[q] == '{' && Accept(s, q, loads).Some?
        ensures LastFrom(s, 0, loads).Some? && Accept(s, q, loads).value.1 <= LastFrom(s, 0, loads).value.1
      {
        if HiddenInString(s, 0, q, loads) {
          var a :| a in AcceptedStarts(s, 0, loads) && Hides(s, a, q, loads);
          assert HiddenDictEndsInTime(s, a, q, loads);
        } else {
          LatestAmongStructural(s, 0, q, loads);
        }
      }
    }
    if LatestOfAll(s, loads) {
      forall a, q ensures HiddenDictEndsInTime(s, a, q, loads) {
      }
    }
  }

  /** In particular it holds when no accepted object has a `{` inside a string. */
  lemma {:induction false} LatestOfAllWithoutHiddenBraces<V>(s: string, loads: string -> Loaded<V>)
    requires forall q :: 0 <= q < |s| && HiddenInString(s, 0, q, loads) ==> s[q] != '{'
    ensures LatestOfAll(s, loads)
  {
    forall a, q ensures HiddenDictEndsInTime(s, a, q, loads) {
      if a in AcceptedStarts(s, 0, loads) && Hides(s, a, q, loads) {
        assert HiddenInString(s, 0, q, loads);
      }
    }
    LatestOfAllIff(s, loads);
  }

  const FAILING := "{\"a\":\"{\"}x\":1}"

  /** Where the scans from the two braces of the failing reply close. */
  lemma {:induction false} FailingScans()
    ensures CloseFrom(FAILING, 0, Out(0)) == Some(8) && CloseFrom(FAILING, 6, Out(0)) == Some(13)
  {
    var s := FAILING;
    assert CloseFrom(s, 0, Out(0)) == Some(8) by {
      assert CloseFrom(s, 7, InStr(1)) == Some(8);
      assert CloseFrom(s, 5, Out(1)) == Some(8);
      assert CloseFrom(s, 3, InStr(1)) == Some(8);
      assert CloseFrom(s, 1, Out(1)) == Some(8);
    }
    assert CloseFrom(s, 6, Out(0)) == Some(13) by {
      assert CloseFrom(s, 12, Out(1)) == Some(13);
      assert CloseFrom(s, 10, InStr(1)) == Some(13);
      assert CloseFrom(s, 8, InStr(1)) == Some(13);
    }
  }

  lemma {:induction false} FailingSearch(loads: string -> Loaded<nat>)
    requires loads(FAILING[0..9]) == Dict(1) && loads(FAILING[6..14]) == Dict(2)
    ensures LastFrom(FAILING, 0, loads) == Some((1, 8)) && Accept(FAILING, 6, loads) == Some((2, 13))
  {
    FailingScans();
    assert NoOpenBrace(FAILING[9..9 + 5]);
    SkipProse(FAILING, 9, 5, loads);
    assert LastFrom(FAILING, 9, loads) == None;
  }

  /** The promise fails on this reply: the brace inside the string starts a dict that ends later. */
  lemma {:induction false} LatestOfAllCanFail(loads: string -> Loaded<nat>)
    requires loads(FAILING[0..9]) == Dict(1) && loads(FAILING[6..14]) == Dict(2)
    ensures LastFrom(FAILING, 0, loads) == Some((1, 8)) && !LatestOfAll(FAILING, loads)
  {
    FailingSearch(loads);
    assert FAILING[6] == '{';
  }
}
