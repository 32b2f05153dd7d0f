/** What the parser takes for a method. It does not refuse every other word: a byte that is off the name
    is passed over as long as CONNECT or MKCOL is what it has in mind. */
module HttpMethodExact {
  import opened Common
  import opened HttpParser
  import opened HttpRun
  import opened HttpMarks
  import opened HttpReads
  import opened HttpHeaders
  import opened HttpLine

  /** After the bytes `t`, the parser has `m` in mind. Only for the words that begin like CONNECT and MKCOL
      is this more than the beginning of the name. */
  predicate Takes(m: Method, t: seq<Byte>) {
    && t != [] && '\0' !in t && VerbAfter(m, |t|) == m
    && match m
       case CONNECT => |t| <= 8 && t[0] == 'C' && (|t| > 1 ==> t[1] != 'H') && (|t| > 2 ==> t[2] != 'P')
       case COPY => 2 < |t| <= 4 && t[0] == 'C' && t[1] != 'H' && t[2..] <= "PY"
       case MKCOL => |t| <= 6 && t[0] == 'M' && (|t| > 1 ==> t[1] !in "OE-") && (|t| > 2 ==> t[2] != 'A')
       case MKACTIVITY => 2 < |t| <= 10 && t[0] == 'M' && t[1] !in "OE-" && t[2..] <= "ACTIVITY"
       case _ => t <= MethodName(m)
  }

  /** The parser before the next byte of a method. */
  function Minding(p: Parser, m: Method, i: nat): Parser {
    Begun(p).(state := ReqMethod, index := i, verb := m, nread := p.nread + i)
  }

  predicate Whole(m: Method, t: seq<Byte>) { |t| == |MethodName(m)| }

  /** A text in which no method has ended with a space. */
  ghost predicate Unended(t: seq<Byte>) {
    forall i, m: Method | 0 < i < |t| && t[i] == ' ' && Takes(m, t[..i]) :: !Whole(m, t[..i])
  }

  lemma PrefixNext(t: seq<Byte>, ch: Byte, name: seq<Byte>)
    ensures t + [ch] <= name <==> t <= name && |t| < |name| && ch == name[|t|]
  {
    if t <= name && |t| < |name| && ch == name[|t|] { assert name[..|t| + 1] == name[..|t|] + [name[|t|]]; }
    if t + [ch] <= name { assert (t + [ch])[..|t|] == t && (t + [ch])[|t|] == ch; }
  }

  /** What a byte leads to while `m` is in mind. */
  predicate LeadsTo(m: Method, t: seq<Byte>, ch: Byte, m': Method) {
    var name := MethodName(m);
    && ch != '\0' && |t| <= |name|
    && (if |t| < |name| && ch == name[|t|] then m' == m else OtherMethod(m, |t|, ch) == (true, m'))
  }

  lemma MoveIs(p: Parser, t: seq<Byte>, ch: Byte)
    requires p.index == |t| && !(ch == ' ' && Whole(p.verb, t))
    ensures match MethodMove(p, ch)
            case Next(q, acts) => q == p.(verb := q.verb, index := |t| + 1) && acts == [] &&
              LeadsTo(p.verb, t, ch, q.verb)
            case out => (out.Fail? || out.Undefined?) && forall m: Method :: !LeadsTo(p.verb, t, ch, m)
  {
    hide OtherMethod, MethodName;
  }

  predicate Tolerant(m: Method) { m.CONNECT? || m.MKCOL? || m.COPY? || m.MKACTIVITY? }

  predicate Guessed(m: Method) { m.POST? || m.UNLOCK? || m.PROPFIND? }

  lemma TakesPlain(m: Method, t: seq<Byte>)
    requires !Tolerant(m)
    ensures Takes(m, t) <==> t != [] && '\0' !in t && VerbAfter(m, |t|) == m && t <= MethodName(m)
  {
    hide MethodName, VerbAfter;
  }

  lemma VerbStays(m: Method, i: nat)
    requires VerbAfter(m, i) == m
    ensures VerbAfter(m, i + 1) == m
  {
  }

  lemma NoOther(m: Method, i: nat, ch: Byte)
    requires !m.CONNECT? && !m.MKCOL? && !Guessed(m)
    ensures !OtherMethod(m, i, ch).0
  {
  }

  lemma PlainNext(m: Method, t: seq<Byte>, ch: Byte, m': Method)
    requires !Tolerant(m) && !Guessed(m) && Takes(m, t) && LeadsTo(m, t, ch, m')
    ensures Takes(m', t + [ch])
  {
    hide MethodName, VerbAfter, Takes, OtherMethod;
    TakesPlain(m, t);
    NoOther(m, |t|, ch);
    PrefixNext(t, ch, MethodName(m));
    VerbStays(m, |t|);
    TakesPlain(m, t + [ch]);
  }

  lemma TurnIs(m: Method, i: nat, ch: Byte)
    requires Guessed(m) && OtherMethod(m, i, ch).0
    ensures var m' := OtherMethod(m, i, ch).1;
            && !Tolerant(m') && i < |MethodName(m)| && i < |MethodName(m')| && ch == MethodName(m')[i]
            && MethodName(m)[..i] == MethodName(m')[..i] && VerbAfter(m', i + 1) == m'
  {
  }

  lemma GuessedNext(m: Method, t: seq<Byte>, ch: Byte, m': Method)
    requires Guessed(m) && Takes(m, t) && LeadsTo(m, t, ch, m')
    ensures Takes(m', t + [ch])
  {
    hide MethodName, VerbAfter, Takes, OtherMethod;
    TakesPlain(m, t);
    if m' == m {
      PrefixNext(t, ch, MethodName(m));
      VerbStays(m, |t|);
      if OtherMethod(m, |t|, ch).0 { TurnIs(m, |t|, ch); }
    } else {
      TurnIs(m, |t|, ch);
      PrefixNext(t, ch, MethodName(m'));
    }
    TakesPlain(m', t + [ch]);
  }

  lemma ConnectNext(t: seq<Byte>, ch: Byte, m': Method)
    requires Takes(CONNECT, t) && LeadsTo(CONNECT, t, ch, m')
    ensures Takes(m', t + [ch])
  {
    var u := t + [ch];
    assert forall i | 0 <= i < |t| :: u[i] == t[i];
    if m' == CHECKOUT {
      assert u == "CH";
    } else if m' == COPY {
      assert u[2..] == "P";
    }
  }

  lemma MkcolNext(t: seq<Byte>, ch: Byte, m': Method)
    requires Takes(MKCOL, t) && LeadsTo(MKCOL, t, ch, m')
    ensures Takes(m', t + [ch])
  {
    var u := t + [ch];
    assert forall i | 0 <= i < |t| :: u[i] == t[i];
    if |t| == 1 {
      assert u == ['M', ch];
      assert m' != MKCOL ==> ch == MethodName(m')[1];
    } else if m' == MKACTIVITY {
      assert u[2..] == "A";
    }
  }

  lemma CopyNext(m: Method, t: seq<Byte>, ch: Byte, m': Method)
    requires (m == COPY || m == MKACTIVITY) && Takes(m, t) && LeadsTo(m, t, ch, m')
    ensures Takes(m', t + [ch])
  {
    hide VerbAfter;
    var rest := MethodName(m)[2..];
    VerbStays(m, |t|);
    NoOther(m, |t|, ch);
    assert rest == (if m == COPY then "PY" else "ACTIVITY");
    PrefixNext(t[2..], ch, rest);
    assert (t + [ch])[2..] == t[2..] + [ch];
  }

  /** One more byte keeps or changes the method that the parser has in mind. */
  lemma TakesNext(m: Method, t: seq<Byte>, ch: Byte, m': Method)
    requires Takes(m, t) && LeadsTo(m, t, ch, m')
    ensures Takes(m', t + [ch])
  {
    hide Takes, LeadsTo;
    match m {
      case CONNECT => ConnectNext(t, ch, m');
      case MKCOL => MkcolNext(t, ch, m');
      case COPY => CopyNext(m, t, ch, m');
      case MKACTIVITY => CopyNext(m, t, ch, m');
      case _ => if Guessed(m) { GuessedNext(m, t, ch, m'); } else { PlainNext(m, t, ch, m'); }
    }
  }

  // ---- and the other way round

  lemma PlainBefore(m: Method, t: seq<Byte>)
    requires !Tolerant(m) && t != [] && t < MethodName(m) && '\0' !in t
    ensures Takes(VerbAfter(m, |t|), t)
  {
    if VerbAfter(m, |t|) == m {
    } else {
      assert 1 <= |t| <= 4;
      assert t == MethodName(m)[..|t|];
    }
  }

  lemma LetterLeads(m: Method, t: seq<Byte>)
    requires 1 <= |t| < |MethodName(m)|
    ensures LeadsTo(VerbAfter(m, |t|), t, MethodName(m)[|t|], VerbAfter(m, |t| + 1))
    ensures MethodName(m)[|t|] != ' '
  {
    hide MethodName, VerbAfter, MethodMove, LeadsTo, Whole;
    var p := Parser(ReqMethod, General, |t|, 0, Request, NO_FLAGS, -1, 0, 0, 0, VerbAfter(m, |t|), false);
    NameLetters(m, |t|);
    NextLetter(p, m, |t|);
    MoveIs(p, t, MethodName(m)[|t|]);
  }

  lemma PlainBack(m: Method, t: seq<Byte>, ch: Byte)
    requires !Tolerant(m) && t != [] && Takes(m, t + [ch])
    ensures Takes(VerbAfter(m, |t|), t) && LeadsTo(VerbAfter(m, |t|), t, ch, m) && ch != ' '
  {
    hide MethodName, VerbAfter, Takes, LeadsTo;
    TakesPlain(m, t + [ch]);
    PrefixNext(t, ch, MethodName(m));
    assert forall i | 0 <= i < |t| :: (t + [ch])[i] == t[i];
    PlainBefore(m, t);
    LetterLeads(m, t);
  }

  lemma TolerantBack(m: Method, t: seq<Byte>, ch: Byte)
    requires Tolerant(m) && t != [] && Takes(m, t + [ch])
    ensures Takes(VerbAfter(m, |t|), t) && LeadsTo(VerbAfter(m, |t|), t, ch, m)
  {
    var u := t + [ch];
    assert forall i | 0 <= i < |t| :: u[i] == t[i];
    assert u[|t|] == ch && ch in u;
    if m == COPY || m == MKACTIVITY { RestBack(m, t, ch); }
  }

  lemma RestBack(m: Method, t: seq<Byte>, ch: Byte)
    requires (m == COPY || m == MKACTIVITY) && t != [] && Takes(m, t + [ch])
    ensures |t| >= 2 && t[0] == (t + [ch])[0] && t[1] == (t + [ch])[1] && |t| < |MethodName(m)|
    ensures ch == MethodName(m)[|t|] && (|t| > 2 ==> t[2..] <= MethodName(m)[2..])
  {
    hide VerbAfter;
    var rest := MethodName(m)[2..];
    assert rest == (if m == COPY then "PY" else "ACTIVITY");
    assert (t + [ch])[2..] == t[2..] + [ch];
    PrefixNext(t[2..], ch, rest);
  }

  /** The method that was in mind one byte before. */
  lemma TakesBack(m: Method, t: seq<Byte>, ch: Byte)
    requires t != [] && Takes(m, t + [ch])
    ensures Takes(VerbAfter(m, |t|), t) && LeadsTo(VerbAfter(m, |t|), t, ch, m)
  {
    hide Takes, LeadsTo, VerbAfter;
    if Tolerant(m) { TolerantBack(m, t, ch); } else { PlainBack(m, t, ch); }
  }

  // ---- the first letter

  lemma FirstVerb(p: Parser, ch: Byte)
    ensures match StartMethod(p, ch)
            case Next(q, _) =>
              && q == p.(state := ReqMethod, index := 1, verb := q.verb) && MethodName(q.verb)[0] == ch
              && VerbAfter(q.verb, 1) == q.verb && !q.verb.COPY? && !q.verb.MKACTIVITY? && ch != '\0'
            case out => out.Fail?
  {
  }

  lemma FirstTaken(p: Parser, ch: Byte)
    ensures match StartMethod(p, ch)
            case Next(q, _) => q == p.(state := ReqMethod, index := 1, verb := q.verb) && Takes(q.verb, [ch])
            case out => out.Fail?
  {
    hide StartMethod, VerbAfter;
    FirstVerb(p, ch);
    if StartMethod(p, ch).Next? { assert [ch] <= MethodName(StartMethod(p, ch).q.verb); }
  }

  lemma FirstBack(p: Parser, m: Method, ch: Byte)
    requires Takes(m, [ch])
    ensures StartMethod(p, ch).Next? && StartMethod(p, ch).q == p.(state := ReqMethod, index := 1, verb := m)
  {
    assert ch == MethodName(m)[0] by { FirstOf(m, ch); }
  }

  lemma FirstOf(m: Method, ch: Byte)
    requires Takes(m, [ch])
    ensures ch == MethodName(m)[0]
  {
    if !Tolerant(m) { assert [ch][0] == MethodName(m)[0]; }
  }

  // ---- runs over a method

  lemma UnendedPrefix(t: seq<Byte>, ch: Byte)
    requires Unended(t + [ch]) && t != []
    ensures Unended(t) && forall m: Method | ch == ' ' && Takes(m, t) :: !Whole(m, t)
  {
    hide Takes, Whole;
    var u := t + [ch];
    assert u[|t|] == ch && u[..|t|] == t;
    forall i, m: Method | 0 < i < |t| && t[i] == ' ' && Takes(m, t[..i]) ensures !Whole(m, t[..i]) {
      assert u[i] == t[i] && u[..i] == t[..i];
    }
  }

  lemma NextIs(p: Parser, m: Method, t: seq<Byte>, ch: Byte)
    requires p.nread + |t| < MAX_HEADER_SIZE && !(ch == ' ' && Whole(m, t))
    ensures match Step(Minding(p, m, |t|), ch)
            case Next(q, _) => q == Minding(p, q.verb, |t| + 1) && LeadsTo(m, t, ch, q.verb)
            case out => (out.Fail? || out.Undefined?) && forall m': Method :: !LeadsTo(m, t, ch, m')
  {
    hide Step, MethodMove, LeadsTo, Whole;
    MethodStep(Minding(p, m, |t|), ch);
    MoveIs(Minding(p, m, |t|).(nread := p.nread + |t| + 1), t, ch);
  }

  /** What a run over the beginning of a request has in mind. */
  ghost predicate MethodFate(p: Parser, t: seq<Byte>, o: Option<Method>) {
    match o
    case Some(m) => Takes(m, t) && Run(p, t, |t|) == Reached(Minding(p, m, |t|))
    case None => Run(p, t, |t|).Stopped? && (Run(p, t, |t|).out.Fail? || Run(p, t, |t|).out.Undefined?)
  }

  lemma FirstFate(p: Parser, ch: Byte) returns (o: Option<Method>)
    requires p.state == StartReq && p.nread < MAX_HEADER_SIZE && TextByte(ch)
    ensures MethodFate(p, [ch], o) && forall m: Method | Takes(m, [ch]) :: o == Some(m)
  {
    hide Step, StartMethod, Takes;
    var b := Begun(p).(nread := p.nread + 1);
    StartStep(p, ch);
    FirstTaken(b, ch);
    assert Run(p, [ch], 0) == Reached(p);
    o := if StartMethod(b, ch).Next? then Some(StartMethod(b, ch).q.verb) else None;
    forall m: Method | Takes(m, [ch]) ensures o == Some(m) { FirstBack(b, m, ch); }
  }

  lemma NextFate(p: Parser, t: seq<Byte>, m: Method, ch: Byte) returns (o: Option<Method>)
    requires MethodFate(p, t, Some(m)) && p.nread + |t| < MAX_HEADER_SIZE && !(ch == ' ' && Whole(m, t))
    ensures MethodFate(p, t + [ch], o) && forall m': Method | LeadsTo(m, t, ch, m') :: o == Some(m')
  {
    hide Step, Takes, LeadsTo, Whole, Minding;
    var u := t + [ch];
    RunPrefix(p, t, [ch], |t|, false);
    assert u[|t|] == ch;
    NextIs(p, m, t, ch);
    var out := Step(Minding(p, m, |t|), ch);
    if out.Next? {
      o := Some(out.q.verb);
      TakesNext(m, t, ch, out.q.verb);
      forall m': Method | LeadsTo(m, t, ch, m') ensures o == Some(m') { OneLead(m, t, ch, m', out.q.verb); }
    } else {
      o := None;
    }
  }

  lemma OneLead(m: Method, t: seq<Byte>, ch: Byte, a: Method, b: Method)
    requires LeadsTo(m, t, ch, a) && LeadsTo(m, t, ch, b)
    ensures a == b
  {
    hide OtherMethod, MethodName;
  }

  lemma StoppedFate(p: Parser, t: seq<Byte>, ch: Byte)
    requires MethodFate(p, t, None)
    ensures MethodFate(p, t + [ch], None)
  {
    hide Step;
    RunPrefix(p, t, [ch], |t|, false);
  }

  lemma {:induction false} RunMethod(p: Parser, t: seq<Byte>) returns (o: Option<Method>)
    requires p.state == StartReq && p.nread + |t| <= MAX_HEADER_SIZE && t != [] && TextByte(t[0]) && Unended(t)
    ensures MethodFate(p, t, o) && forall m: Method | Takes(m, t) :: o == Some(m)
    decreases |t|
  {
    hide MethodFate, Takes, LeadsTo, Unended, Whole, VerbAfter, TextByte;
    var init, ch := t[..|t| - 1], t[|t| - 1];
    assert t == init + [ch];
    if init == [] {
      o := FirstFate(p, ch);
    } else {
      UnendedPrefix(init, ch);
      var before := RunMethod(p, init);
      if before.Some? {
        FateTakes(p, init, before.value);
        o := NextFate(p, init, before.value, ch);
      } else {
        o := None;
        StoppedFate(p, init, ch);
      }
      forall m: Method | Takes(m, t) ensures o == Some(m) { TakesBack(m, init, ch); }
    }
  }

  lemma FateTakes(p: Parser, t: seq<Byte>, m: Method)
    requires MethodFate(p, t, Some(m))
    ensures Takes(m, t)
  {
  }

  /** While no method has ended, the parser has exactly the method in mind that `Takes` says, and it has
      refused the text if there is none; a space ends the method exactly if the name is complete. */
  lemma MethodExactly(p: Parser, t: seq<Byte>)
    requires p.state == StartReq && p.nread + |t| < MAX_HEADER_SIZE && t != [] && TextByte(t[0]) && Unended(t)
    ensures forall m: Method :: Takes(m, t) <==> Run(p, t, |t|) == Reached(Minding(p, m, |t|))
    ensures (forall m: Method :: !Takes(m, t)) ==>
              Run(p, t, |t|).Stopped? && (Run(p, t, |t|).out.Fail? || Run(p, t, |t|).out.Undefined?)
    ensures forall m: Method | Takes(m, t) ::
              Whole(m, t) <==> exists q: Parser :: Run(p, t + [' '], |t| + 1) == Reached(q) && q.state == ReqSpaces
  {
    hide Takes, Step, Whole;
    var o := RunMethod(p, t);
    forall m: Method | Takes(m, t)
      ensures Whole(m, t) <==> exists q: Parser :: Run(p, t + [' '], |t| + 1) == Reached(q) && q.state == ReqSpaces
    {
      RunPrefix(p, t, [' '], |t|, false);
      assert (t + [' '])[|t|] == ' ';
      SpaceEnds(p, m, t);
    }
  }

  lemma SpaceEnds(p: Parser, m: Method, t: seq<Byte>)
    requires p.nread + |t| < MAX_HEADER_SIZE
    ensures Whole(m, t) <==> Step(Minding(p, m, |t|), ' ').Next? && Step(Minding(p, m, |t|), ' ').q.state == ReqSpaces
  {
    hide Step, LeadsTo, MethodName;
    if Whole(m, t) {
      MethodStep(Minding(p, m, |t|), ' ');
    } else {
      NextIs(p, m, t, ' ');
    }
  }

  /** A word that is no method and is read as one. */
  lemma NoMethodTaken()
    ensures Takes(CONNECT, "CXXXXXX") && Whole(CONNECT, "CXXXXXX") && forall m: Method :: MethodName(m) != "CXXXXXX"
  {
    forall m: Method ensures MethodName(m) != "CXXXXXX" {
      if |MethodName(m)| == 7 { assert MethodName(m)[6] != 'X'; }
    }
  }

  /** Complete words are read as the methods they are, except where CONNECT or MKCOL was in mind: there the
      second byte of COPY and MKACTIVITY and all but the first of CONNECT and MKCOL count for little. */
  lemma WholeWords(m: Method, t: seq<Byte>)
    requires Whole(m, t) && '\0' !in t
    ensures Takes(m, t) <==>
            match m
            case CONNECT => t[0] == 'C' && t[1] != 'H' && t[2] != 'P'
            case COPY => t == ['C', t[1]] + "PY" && t[1] != 'H'
            case MKCOL => t[0] == 'M' && t[1] !in "OE-" && t[2] != 'A'
            case MKACTIVITY => t == ['M', t[1]] + "ACTIVITY" && t[1] !in "OE-"
            case _ => t == MethodName(m)
  {
    VerbIs(m);
    if Tolerant(m) {
      assert t == [t[0], t[1]] + t[2..];
    } else {
      TakesPlain(m, t);
    }
  }
}
