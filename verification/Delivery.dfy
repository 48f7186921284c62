/** From the harness to the client: which of the harness's texts a stream hands on. */
module Delivery {
  import opened Rows
  import opened Pump
  import opened StreamCourse
  import opened StreamLaws

  function IsToken(): Effect -> bool {
    (e: Effect) => e.Append? && e.kind == Token
  }

  /** The stored token events of a trace. */
  function Tokens(t: seq<Effect>): (r: seq<Effect>)
    ensures forall i :: 0 <= i < |r| ==> r[i] in r && r[i].Append? && r[i].kind == Token
  {
    Where(t, IsToken())
  }

  /** What one item of the harness contributes to the answer. */
  function TextOf(mode: Mode, item: Item): seq<string> {
    if item.text != "" && (mode.OpenAi? ==> item.tool == None) then [item.text] else []
  }

  function TextsOf(mode: Mode, items: seq<Item>): seq<string> {
    if items == [] then [] else TextOf(mode, items[0]) + TextsOf(mode, items[1..])
  }

  /** The texts a handler meets before something ends its stream. */
  function Met(mode: Mode, items: seq<StreamItem>): seq<string> {
    if items == [] || !Undisturbed(mode, [items[0]]) then []
    else Contribution(mode, items[0]) + Met(mode, items[1..])
  }

  /** The i-th event is a token event for the i-th text. */
  predicate Tells(tokens: seq<Effect>, texts: seq<string>, frame: Framer) {
    && |tokens| <= |texts|
    && forall i :: 0 <= i < |tokens| ==> tokens[i].Append? && tokens[i].frame == frame(Token, tokens[i].id, texts[i])
  }

  lemma TokensAppend(a: seq<Effect>, b: seq<Effect>)
    ensures Tokens(a + b) == Tokens(a) + Tokens(b)
  {
    WhereAppend(a, b, IsToken());
  }

  lemma TokensPrefix(a: seq<Effect>, b: seq<Effect>)
    requires a <= b
    ensures Tokens(a) <= Tokens(b)
  {
    assert b == a + b[|a|..];
    TokensAppend(a, b[|a|..]);
  }

  lemma {:induction false} NoTokens(t: seq<Effect>)
    requires forall e :: e in t ==> !IsToken()(e)
    ensures Tokens(t) == []
  {
    CountNone(t, IsToken());
  }

  /** After the last item no token is stored. */
  lemma EndTellsNothing(mode: Mode, frame: Framer, env: Env, next: int, productive: bool)
    ensures Tokens(Course(mode, frame, env, [], next, productive)) == []
  {
    assert forall e :: e in Closing(frame, env.recorded, next) ==> !IsToken()(e);
    assert forall e :: e in Accounting(mode, frame, env, next) ==> !IsToken()(e);
    assert forall e :: e in AfterItems(mode, frame, env, next, productive) ==> !IsToken()(e);
    NoTokens(Course(mode, frame, env, [], next, productive));
  }

  /** One item stores one token event if it carries text, and none otherwise. */
  lemma ItemTells(mode: Mode, frame: Framer, x: StreamItem, next: int)
    ensures var tokens := Tokens(ItemEffects(mode, frame, x, next));
            if IsText(mode, x) then tokens == [Append(Token, next, x.item.text, frame(Token, next, x.item.text))]
            else tokens == []
  {
    if IsText(mode, x) {
      var a := Append(Token, next, x.item.text, frame(Token, next, x.item.text));
      var y := Yield(frame(Token, next, x.item.text));
      assert ItemEffects(mode, frame, x, next) == [a] + [y];
      TokensAppend([a], [y]);
      assert [a][1..] == [] && [y][1..] == [];
    } else {
      NoTokens(ItemEffects(mode, frame, x, next));
    }
  }

  lemma TellsMore(head: seq<Effect>, rest: seq<Effect>, text: seq<string>, texts: seq<string>, frame: Framer)
    requires |head| == |text| && Tells(head, text, frame) && Tells(rest, texts, frame)
    ensures Tells(head + rest, text + texts, frame)
  {
  }

  function Contribution(mode: Mode, x: StreamItem): seq<string> {
    if x.Passed? then TextOf(mode, x.item) else []
  }

  lemma ContributionIsTold(mode: Mode, frame: Framer, x: StreamItem, next: int)
    ensures var tokens := Tokens(ItemEffects(mode, frame, x, next));
            |tokens| == |Contribution(mode, x)| && Tells(tokens, Contribution(mode, x), frame)
  {
    ItemTells(mode, frame, x, next);
  }

  /** A complete course tells every text it meets. */
  lemma {:induction false} CourseTells(mode: Mode, frame: Framer, env: Env, items: seq<StreamItem>, next: int,
                                       productive: bool)
    ensures var tokens := Tokens(Course(mode, frame, env, items, next, productive));
            Tells(tokens, Met(mode, items), frame) && |tokens| == |Met(mode, items)|
    decreases |items|
  {
    if items == [] {
      EndTellsNothing(mode, frame, env, next, productive);
    } else {
      var x := items[0];
      CourseStep(mode, frame, env, items, next, productive);
      OneItem(mode, x);
      if EndsStream(mode, x) {
        ItemTells(mode, frame, x, next);
      } else {
        var id, more := NextId(mode, x, next), productive || IsTool(mode, x) || IsText(mode, x);
        var head, rest := ItemEffects(mode, frame, x, next), Course(mode, frame, env, items[1..], id, more);
        CourseTells(mode, frame, env, items[1..], id, more);
        TokensAppend(head, rest);
        ContributionIsTold(mode, frame, x, next);
        TellsMore(Tokens(head), Tokens(rest), Contribution(mode, x), Met(mode, items[1..]), frame);
      }
    }
  }

  /** Once the release flag is down, the harness ended by itself and nothing it said is still to be stored. */
  lemma {:induction false} FlagDownMeansTold(mode: Mode, frame: Framer, env: Env, items: seq<StreamItem>, next: int,
                                          productive: bool, t: seq<Effect>)
    requires t <= Course(mode, frame, env, items, next, productive) && LowerFlag in t
    ensures env.harness == Fine && Tokens(t) == Tokens(Course(mode, frame, env, items, next, productive))
    ensures Undisturbed(mode, items)
    decreases |items|
  {
    var course := Course(mode, frame, env, items, next, productive);
    if items == [] {
      EndTellsNothing(mode, frame, env, next, productive);
      TokensPrefix(t, course);
      FaultKeepsFlag(mode, frame, env, env.harness.RuntimeFault? && env.harness.cancelish, next);
    } else {
      var x := items[0];
      var head := ItemEffects(mode, frame, x, next);
      CourseStep(mode, frame, env, items, next, productive);
      ItemKeepsFlag(mode, frame, x, next);
      var id, more := NextId(mode, x, next), productive || IsTool(mode, x) || IsText(mode, x);
      var rest := Course(mode, frame, env, items[1..], id, more);
      FlagIsLater(head, rest, t);
      var t' := t[|head|..];
      FlagDownMeansTold(mode, frame, env, items[1..], id, more, t');
      TokensAppend(head, t');
      TokensAppend(head, rest);
    }
  }

  lemma FlagIsLater(head: seq<Effect>, rest: seq<Effect>, t: seq<Effect>)
    requires t <= head + rest && LowerFlag in t && LowerFlag !in head
    ensures |head| <= |t| && t == head + t[|head|..] && t[|head|..] <= rest && LowerFlag in t[|head|..]
  {
    var i :| 0 <= i < |t| && t[i] == LowerFlag;
    assert forall k :: 0 <= k < |t| && k < |head| ==> t[k] in head;
    assert t[|head|..][i - |head|] == LowerFlag;
  }

  lemma PassedStep(mode: Mode, out: seq<StreamItem>)
    requires out != []
    ensures TextsOf(mode, ItemsOf(out)) == Contribution(mode, out[0]) + TextsOf(mode, ItemsOf(out[1..]))
  {
    ItemsOfCons(out);
    var first := if out[0].Passed? then [out[0].item] else [];
    TextsOfAppend(mode, first, ItemsOf(out[1..]));
    assert first != [] ==> first[1..] == [] && TextOf(mode, first[0]) + [] == TextOf(mode, first[0]);
  }

  lemma UndisturbedStep(mode: Mode, out: seq<StreamItem>)
    requires out != []
    ensures Undisturbed(mode, out) <==> Undisturbed(mode, [out[0]]) && Undisturbed(mode, out[1..])
  {
    assert forall x :: x in out <==> x in [out[0]] || x in out[1..];
  }

  /** What the handler meets is a beginning of what the pump passed on, all of it if nothing ended the stream. */
  lemma {:induction false} MetIsPassed(mode: Mode, out: seq<StreamItem>)
    ensures Met(mode, out) <= TextsOf(mode, ItemsOf(out))
    ensures Undisturbed(mode, out) ==> Met(mode, out) == TextsOf(mode, ItemsOf(out))
  {
    if out != [] {
      MetIsPassed(mode, out[1..]);
      PassedStep(mode, out);
      UndisturbedStep(mode, out);
    }
  }

  lemma {:induction false} ItemsOfCons(out: seq<StreamItem>)
    requires out != []
    ensures ItemsOf(out) == (if out[0].Passed? then [out[0].item] else []) + ItemsOf(out[1..])
  {
    var n := |out| - 1;
    if n > 0 {
      ItemsOfCons(out[..n]);
      assert out[..n][1..] == out[1..][..n - 1];
    }
  }

  lemma {:induction false} TextsOfAppend(mode: Mode, a: seq<Item>, b: seq<Item>)
    ensures TextsOf(mode, a + b) == TextsOf(mode, a) + TextsOf(mode, b)
  {
    if a == [] {
      assert a + b == b;
    } else {
      assert (a + b)[1..] == a[1..] + b;
      TextsOfAppend(mode, a[1..], b);
    }
  }

  /** The handler learns that the harness has ended well only from a pump that stopped by itself or cancelled. */
  predicate Faithful(env: Env, r: Report) {
    env.harness.Fine? ==> r.status == Ended || r.status == Disconnected
  }

  lemma FullCourseTokens(mode: Mode, frame: Framer, env: Env, out: seq<StreamItem>)
    ensures Tokens(FullCourse(mode, frame, env, out)) == Tokens(Course(mode, frame, env, out, 2, false))
    ensures LowerFlag !in Emit(frame, Start, "", 1)
  {
    NoTokens(Emit(frame, Start, "", 1));
    TokensAppend(Emit(frame, Start, "", 1), Course(mode, frame, env, out, 2, false));
  }

  lemma FlaggedStreamToldAll(mode: Mode, frame: Framer, env: Env, out: seq<StreamItem>, done: seq<Effect>)
    requires done <= FullCourse(mode, frame, env, out) && LowerFlag in done
    ensures Tokens(done) == Tokens(FullCourse(mode, frame, env, out)) && env.harness.Fine?
    ensures Undisturbed(mode, out)
  {
    var start, course := Emit(frame, Start, "", 1), Course(mode, frame, env, out, 2, false);
    FullCourseTokens(mode, frame, env, out);
    NoTokens(start);
    FlagIsLater(start, course, done);
    FlagDownMeansTold(mode, frame, env, out, 2, false, done[|start|..]);
    TokensAppend(start, done[|start|..]);
  }

  /** The token events of a stream are those of the first texts the pump passed on. */
  lemma TokensFollowPump(mode: Mode, frame: Framer, env: Env, out: seq<StreamItem>, done: seq<Effect>)
    requires done <= FullCourse(mode, frame, env, out)
    ensures Tells(Tokens(done), Met(mode, out), frame)
    ensures LowerFlag in done ==>
              && |Tokens(done)| == |Met(mode, out)| && env.harness.Fine?
              && Undisturbed(mode, out)
  {
    CourseTells(mode, frame, env, out, 2, false);
    FullCourseTokens(mode, frame, env, out);
    TokensPrefix(done, FullCourse(mode, frame, env, out));
    if LowerFlag in done {
      FlaggedStreamToldAll(mode, frame, env, out, done);
    }
  }

  lemma PassedIsFirst(mode: Mode, harness: seq<Item>, k: nat)
    requires k <= |harness|
    ensures TextsOf(mode, harness[..k]) <= TextsOf(mode, harness)
  {
    assert harness == harness[..k] + harness[k..];
    TextsOfAppend(mode, harness[..k], harness[k..]);
  }

  /** Whatever happens to pump, harness and client, the token events stored so far are those of the harness's first
      non-empty texts, in order and each once; once the release flag is down they are those of all its texts, and the
      client had not been seen to leave. */
  lemma TokensFollowHarness(mode: Mode, frame: Framer, env: Env, harness: seq<Item>, ending: HarnessEnd,
                            turns: seq<Turn>,
                            readyAtClose: bool, r: Report, done: seq<Effect>)
    requires Sound(harness, ending, turns, readyAtClose, r) && Faithful(env, r)
    requires done <= FullCourse(mode, frame, env, r.out)
    ensures Tells(Tokens(done), TextsOf(mode, harness), frame)
    ensures LowerFlag in done ==> r.status == Ended && |Tokens(done)| == |TextsOf(mode, harness)|
  {
    TokensFollowPump(mode, frame, env, r.out, done);
    MetIsPassed(mode, r.out);
    PassedIsFirst(mode, harness, |ItemsOf(r.out)|);
    assert harness[..|harness|] == harness;
    assert LowerFlag in done && r.out != [] ==> r.out[|r.out| - 1] in r.out;
  }
}
