/** The query-string part of a request URL. A parameter list is an ordered
    sequence of (name, optional value); the parameters with a value are
    rendered `name=value`, the first one led by a caller-chosen lead and
    every later one by `&`. Both implementations share this rendering; they
    differ in which parameters are kept and what lead they use. */
module Query {
  import opened Wrappers

  type Param = (string, Option<string>)

  function Field(name: string, value: string): string {
    name + "=" + value
  }

  /** The (name, value) pairs of the parameters that have a value, in their
      original order. */
  function Present(params: seq<Param>): (r: seq<(string, string)>)
    ensures |r| <= |params|
  {
    if |params| == 0 then []
    else (if params[0].1.Some? then [(params[0].0, params[0].1.value)] else []) + Present(params[1..])
  }

  /** The kept pairs are exactly the parameters that have a value: nothing
      without a value is kept, nothing with a value is lost. */
  lemma {:induction false} PresentMembers(params: seq<Param>)
    ensures forall name, value :: (name, value) in Present(params) <==> (name, Some(value)) in params
  {
    if |params| > 0 {
      PresentMembers(params[1..]);
      assert params == [params[0]] + params[1..];
    }
  }

  lemma PresentPair(a: Param, b: Param)
    ensures Present([a, b]) ==
            (if a.1.Some? then [(a.0, a.1.value)] else []) + (if b.1.Some? then [(b.0, b.1.value)] else [])
  {
    assert [a, b][1..] == [b];
    assert [b][1..] == [];
  }

  /** Dropping the absent values keeps the rest in order: the kept pairs of
      a concatenation are the kept pairs of each part, in sequence. */
  lemma {:induction false} PresentConcat(a: seq<Param>, b: seq<Param>)
    ensures Present(a + b) == Present(a) + Present(b)
  {
    if |a| == 0 {
      assert a + b == b;
    } else {
      var head := if a[0].1.Some? then [(a[0].0, a[0].1.value)] else [];
      assert (a + b)[0] == a[0];
      assert (a + b)[1..] == a[1..] + b;
      assert Present(a + b) == head + Present(a[1..] + b);
      PresentConcat(a[1..], b);
      assert Present(a) == head + Present(a[1..]);
      assert head + (Present(a[1..]) + Present(b)) == (head + Present(a[1..])) + Present(b);
    }
  }

  /** The rendered pairs: `lead` before the first, `&` before each later
      one, nothing at all for an empty list. */
  function Joined(pairs: seq<(string, string)>, lead: string): string
  {
    if |pairs| == 0 then ""
    else lead + Field(pairs[0].0, pairs[0].1) + Joined(pairs[1..], "&")
  }

  /** Appending one pair appends exactly one separator and its field: the
      lead when it is the first, `&` otherwise. */
  lemma {:induction false} JoinedSnoc(pairs: seq<(string, string)>, p: (string, string), lead: string)
    ensures Joined(pairs + [p], lead) ==
            Joined(pairs, lead) + (if |pairs| == 0 then lead else "&") + Field(p.0, p.1)
  {
    if |pairs| == 0 {
      assert pairs + [p] == [p];
      assert [p][1..] == [];
    } else {
      assert (pairs + [p])[1..] == pairs[1..] + [p];
      JoinedSnoc(pairs[1..], p, "&");
    }
  }

  lemma JoinedOne(p: (string, string), lead: string)
    ensures Joined([p], lead) == lead + Field(p.0, p.1)
  {
    assert [p][1..] == [];
  }

  lemma JoinedTwo(p: (string, string), q: (string, string), lead: string)
    ensures Joined([p, q], lead) == lead + Field(p.0, p.1) + "&" + Field(q.0, q.1)
  {
    assert [p, q][1..] == [q];
    JoinedOne(q, "&");
  }

  /** Every rendered pair is preceded by exactly one separator: with lead
      `&`, the rendering is each pair's `&name=value` in turn. */
  function AmpEach(pairs: seq<(string, string)>): string
  {
    if |pairs| == 0 then ""
    else
      var last := pairs[|pairs| - 1];
      AmpEach(pairs[..|pairs| - 1]) + "&" + Field(last.0, last.1)
  }

  lemma {:induction false} JoinedAmpIsAmpEach(pairs: seq<(string, string)>)
    ensures Joined(pairs, "&") == AmpEach(pairs)
    decreases |pairs|
  {
    if |pairs| > 0 {
      var init := pairs[..|pairs| - 1];
      var last := pairs[|pairs| - 1];
      assert pairs == init + [last];
      JoinedSnoc(init, last, "&");
      JoinedAmpIsAmpEach(init);
    }
  }

  /** `&`-rendering distributes over concatenation. */
  lemma {:induction false} AmpEachConcat(a: seq<(string, string)>, b: seq<(string, string)>)
    ensures AmpEach(a + b) == AmpEach(a) + AmpEach(b)
    decreases |b|
  {
    if |b| == 0 {
      assert a + b == a;
    } else {
      var init := b[..|b| - 1];
      assert (a + b)[..|a + b| - 1] == a + init;
      AmpEachConcat(a, init);
    }
  }

  /** One more parameter adds its pair to the kept ones exactly when it has
      a value. */
  lemma PresentStep(params: seq<Param>, i: nat)
    requires i < |params|
    ensures Present(params[..i + 1]) ==
            Present(params[..i]) + (if params[i].1.Some? then [(params[i].0, params[i].1.value)] else [])
  {
    assert params[..i + 1] == params[..i] + [params[i]];
    PresentConcat(params[..i], [params[i]]);
    assert [params[i]][1..] == [];
  }

  /** The loop of the Python helper (send_url_get_request), written as the
      source writes it: count the parameters that have a value, give the
      first one the caller's separator and each later one `&`. Its result is
      the declarative rendering of the present parameters. */
  method AppendOptionalParameters(url: string, separator: string, params: seq<Param>)
    returns (r: string)
    ensures r == url + Joined(Present(params), separator)
  {
    r := url;
    var count := 0;
    var i := 0;
    while i < |params|
      invariant 0 <= i <= |params|
      invariant count == |Present(params[..i])|
      invariant r == url + Joined(Present(params[..i]), separator)
    {
      var name := params[i].0;
      var value := params[i].1;
      ghost var done := Present(params[..i]);
      PresentStep(params, i);
      if value.Some? {
        JoinedSnoc(done, (name, value.value), separator);
        count := count + 1;
        if count == 1 {
          r := r + separator + Field(name, value.value);
        } else {
          r := r + "&" + Field(name, value.value);
        }
        assert r == url + (Joined(done, separator) + (if |done| == 0 then separator else "&") + Field(name, value.value));
      } else {
        assert done + [] == done;
      }
      i := i + 1;
    }
    assert params[..i] == params;
  }
}
