/** The keys of one entry as a list, and the text in which they travel between servers. */
module Packing {

  /** A key the comma-separated text can carry. */
  predicate Clean(key: string) {
    key != "" && ',' !in key
  }

  predicate AllClean(keys: seq<string>) {
    forall i :: 0 <= i < |keys| ==> Clean(keys[i])
  }

  /** A comma in front of every key. */
  function Pack(keys: seq<string>): string {
    if keys == [] then "" else "," + keys[0] + Pack(keys[1..])
  }

  /** Where the token that starts `s` ends. */
  function TokenEnd(s: string): (n: nat)
    ensures n <= |s|
    ensures ',' !in s[..n]
    ensures n == |s| || s[n] == ','
  {
    if s == "" || s[0] == ',' then 0
    else
      var m := TokenEnd(s[1..]);
      assert s[..1 + m] == [s[0]] + s[1..][..m];
      1 + m
  }

  /** The tokens strtok finds with "," as separator: runs of commas are skipped. */
  function Unpack(s: string): (keys: seq<string>)
    ensures AllClean(keys)
    decreases |s|
  {
    if s == "" then []
    else if s[0] == ',' then Unpack(s[1..])
    else
      var n := TokenEnd(s);
      assert n > 0;
      [s[..n]] + Unpack(s[n..])
  }

  predicate Distinct(keys: seq<string>) {
    forall x, y :: 0 <= x < y < |keys| ==> keys[x] != keys[y]
  }

  /** The list without the first occurrence of `key`. */
  function Without(l: seq<string>, key: string): seq<string> {
    if l == [] then [] else if l[0] == key then l[1..] else [l[0]] + Without(l[1..], key)
  }

  /** A list of distinct keys loses exactly that key. */
  lemma WithoutKeeps(l: seq<string>, key: string)
    requires Distinct(l)
    ensures Distinct(Without(l, key))
    ensures forall x :: x in Without(l, key) <==> x in l && x != key
  {
    if l != [] && l[0] != key {
      WithoutKeeps(l[1..], key);
      assert l == [l[0]] + l[1..];
      var w := Without(l[1..], key);
      assert l[0] !in w by { assert l[0] !in l[1..]; }
      assert forall x :: 0 <= x < |w| ==> w[x] in w;
    }
  }

  function Reverse(keys: seq<string>): (r: seq<string>)
    ensures |r| == |keys|
  {
    if keys == [] then [] else Reverse(keys[1..]) + [keys[0]]
  }

  lemma {:induction false} ReverseSame(keys: seq<string>, k: string)
    ensures k in Reverse(keys) <==> k in keys
  {
    if keys != [] {
      assert keys == [keys[0]] + keys[1..];
      ReverseSame(keys[1..], k);
    }
  }

  lemma {:induction false} ReverseAt(keys: seq<string>, k: nat)
    requires k < |keys|
    ensures Reverse(keys)[k] == keys[|keys| - 1 - k]
  {
    if k < |keys| - 1 {
      ReverseAt(keys[1..], k);
    }
  }

  /** Every key stands in the text behind a comma, between the keys before and after it. */
  lemma {:induction false} PackAround(keys: seq<string>, k: nat)
    requires k < |keys|
    ensures Pack(keys) == Pack(keys[..k]) + "," + keys[k] + Pack(keys[k + 1..])
  {
    if k > 0 {
      PackAround(keys[1..], k - 1);
      assert keys[1..][..k - 1] == keys[..k][1..] && keys[1..][k..] == keys[k + 1..];
    }
  }

  lemma TokenEndAt(key: string, rest: string)
    requires ',' !in key
    requires rest == "" || rest[0] == ','
    ensures TokenEnd(key + rest) == |key|
  {
    if key == "" {
      assert key + rest == rest;
    } else {
      assert (key + rest)[1..] == key[1..] + rest;
      TokenEndAt(key[1..], rest);
    }
  }

  lemma {:induction false} RoundTrip(keys: seq<string>)
    requires AllClean(keys)
    ensures Unpack(Pack(keys)) == keys
  {
    if keys != [] {
      var rest := Pack(keys[1..]);
      var s := keys[0] + rest;
      assert Pack(keys) == "," + s;
      assert Pack(keys)[1..] == s;
      TokenEndAt(keys[0], rest);
      assert s[..|keys[0]|] == keys[0] && s[|keys[0]|..] == rest;
      assert Unpack(s) == [keys[0]] + Unpack(rest);
      RoundTrip(keys[1..]);
    }
  }

  /** A list of keys survives the journey exactly when every key is non-empty and
      has no comma. */
  lemma LosslessIffClean(keys: seq<string>)
    ensures Unpack(Pack(keys)) == keys <==> AllClean(keys)
  {
    if AllClean(keys) {
      RoundTrip(keys);
    }
  }
}
