/** The chat transcript: messages in the order they were emitted. */
module Transcript {

  /** A transcript entry; isOption marks a menu button, isLink a hyperlink, isButton a confirmation button. */
  datatype Message = Message(text: string, isUser: bool, isOption: bool, isLink: bool, isButton: bool)

  /** `messages.filter((msg) => !msg.isOption)`: the option messages dropped, the others kept in order. */
  function WithoutOptions(ms: seq<Message>): (r: seq<Message>)
    ensures forall i :: 0 <= i < |r| ==> !r[i].isOption
    ensures |r| <= |ms|
  {
    if ms == [] then []
    else (if ms[0].isOption then [] else [ms[0]]) + WithoutOptions(ms[1..])
  }

  /** Every message that is not an option survives the filter as often as it occurs; no option does. */
  lemma {:induction false} WithoutOptionsCounts(ms: seq<Message>, m: Message)
    ensures multiset(WithoutOptions(ms))[m] == if m.isOption then 0 else multiset(ms)[m]
  {
    if ms != [] {
      WithoutOptionsCounts(ms[1..], m);
      assert ms == [ms[0]] + ms[1..];
      assert multiset(ms) == multiset([ms[0]]) + multiset(ms[1..]);
    }
  }

  /** The filter looks at one message at a time. */
  lemma WithoutOptionsCons(m: Message, rest: seq<Message>)
    ensures WithoutOptions([m] + rest) == (if m.isOption then [] else [m]) + WithoutOptions(rest)
  {
    assert ([m] + rest)[0] == m && ([m] + rest)[1..] == rest;
  }

  /** Filtering a concatenation filters each part and keeps them in order. */
  lemma {:induction false} WithoutOptionsAppend(a: seq<Message>, b: seq<Message>)
    ensures WithoutOptions(a + b) == WithoutOptions(a) + WithoutOptions(b)
  {
    if a != [] {
      var head := if a[0].isOption then [] else [a[0]];
      assert a + b == [a[0]] + (a[1..] + b);
      assert a == [a[0]] + a[1..];
      calc {
        WithoutOptions(a + b);
        { WithoutOptionsCons(a[0], a[1..] + b); }
        head + WithoutOptions(a[1..] + b);
        { WithoutOptionsAppend(a[1..], b); }
        head + (WithoutOptions(a[1..]) + WithoutOptions(b));
        (head + WithoutOptions(a[1..])) + WithoutOptions(b);
        { WithoutOptionsCons(a[0], a[1..]); }
        WithoutOptions(a) + WithoutOptions(b);
      }
    } else {
      assert a + b == b;
    }
  }

  /** A transcript without option messages passes the filter unchanged. */
  lemma {:induction false} WithoutOptionsKeeps(ms: seq<Message>)
    requires forall i :: 0 <= i < |ms| ==> !ms[i].isOption
    ensures WithoutOptions(ms) == ms
  {
    if ms != [] {
      WithoutOptionsKeeps(ms[1..]);
      assert [ms[0]] + ms[1..] == ms;
    }
  }

  /** The filter keeps prefixes: what survives of a prefix is a prefix of what survives of the whole. */
  lemma WithoutOptionsPrefix(a: seq<Message>, b: seq<Message>)
    requires a <= b
    ensures WithoutOptions(a) <= WithoutOptions(b)
  {
    var rest := b[|a|..];
    assert b == a + rest;
    WithoutOptionsAppend(a, rest);
  }

  /** Filtering twice is filtering once. */
  lemma WithoutOptionsIdempotent(ms: seq<Message>)
    ensures WithoutOptions(WithoutOptions(ms)) == WithoutOptions(ms)
  {
    WithoutOptionsKeeps(WithoutOptions(ms));
  }
}
