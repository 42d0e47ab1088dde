/**
 * The two URL helpers in lib/utils.ts. Each parses the current query string
 * into a dictionary, changes it in place, and stringifies it back onto the
 * current path, skipping null values. Parsing and stringifying the text are
 * outside the model: a parsed query is a map from key to value, where a null
 * value (a key written without `=`) is `None`.
 */
module UrlQuery {
  import opened Common

  type Query = map<string, Option<string>>

  /** A produced URL: the path and the parameters it carries. */
  datatype Url = Url(path: string, query: map<string, string>)

  /** `stringifyUrl({url: path, query}, {skipNull: true})`: null-valued keys are dropped. */
  function StringifyUrl(path: string, q: Query): (u: Url)
    ensures u.path == path
    ensures forall k :: k in u.query <==> k in q && q[k].Some?
    ensures forall k :: k in u.query ==> u.query[k] == q[k].value
  {
    Url(path, map k | k in q && q[k].Some? :: q[k].value)
  }

  /** The dictionary after `currentUrl[key] = value`. */
  function WithParam(q: Query, key: string, value: string): (r: Query)
    ensures key in r && r[key] == Some(value)
    ensures forall k :: k != key ==> (k in r <==> k in q)
    ensures forall k :: k != key && k in q ==> r[k] == q[k]
  {
    q[key := Some(value)]
  }

  /** The dictionary after deleting every key of `keys`. */
  function WithoutKeys(q: Query, keys: seq<string>): (r: Query)
    ensures forall k :: k in r <==> k in q && k !in keys
    ensures forall k :: k in r ==> r[k] == q[k]
  {
    map k | k in q && k !in keys :: q[k]
  }

  /** `formUrlQuery({params, key, value})` on the page at `path`. */
  method FormUrlQuery(params: Query, key: string, value: string, path: string) returns (url: Url)
    ensures url == StringifyUrl(path, WithParam(params, key, value))
    ensures url.path == path
    ensures key in url.query && url.query[key] == value
  {
    var current := params;
    current := current[key := Some(value)];
    url := StringifyUrl(path, current);
  }

  /** `removeKeysFromQuery({params, keysToRemove})` on the page at `path`. */
  method RemoveKeysFromQuery(params: Query, keysToRemove: seq<string>, path: string) returns (url: Url)
    ensures url == StringifyUrl(path, WithoutKeys(params, keysToRemove))
    ensures forall k :: k in keysToRemove ==> k !in url.query
  {
    var current := params;
    var i := 0;
    while i < |keysToRemove|
      invariant 0 <= i <= |keysToRemove|
      invariant current == WithoutKeys(params, keysToRemove[..i])
    {
      assert keysToRemove[..i + 1] == keysToRemove[..i] + [keysToRemove[i]];
      current := current - {keysToRemove[i]};
      i := i + 1;
    }
    assert keysToRemove[..i] == keysToRemove;
    url := StringifyUrl(path, current);
  }

  /** Setting the same key to the same value twice is the same as once, down to the URL. */
  lemma WithParamIdempotent(q: Query, key: string, value: string, path: string)
    ensures WithParam(WithParam(q, key, value), key, value) == WithParam(q, key, value)
    ensures StringifyUrl(path, WithParam(WithParam(q, key, value), key, value)) == StringifyUrl(path, WithParam(q, key, value))
  {
  }

  /** Every other parameter of the page's URL comes through `formUrlQuery` unchanged. */
  lemma WithParamKeepsOthers(q: Query, key: string, value: string, path: string, k: string)
    requires k != key
    ensures k in StringifyUrl(path, WithParam(q, key, value)).query <==> k in StringifyUrl(path, q).query
    ensures k in StringifyUrl(path, q).query ==>
              StringifyUrl(path, WithParam(q, key, value)).query[k] == StringifyUrl(path, q).query[k]
  {
  }

  /** Removing keys that are not there changes nothing. */
  lemma RemovingAbsentKeysIsHarmless(q: Query, keys: seq<string>)
    requires forall i :: 0 <= i < |keys| ==> keys[i] !in q
    ensures WithoutKeys(q, keys) == q
  {
  }

  /** Removing twice is the same as removing once, and the keys not listed are kept with their values. */
  lemma WithoutKeysIdempotent(q: Query, keys: seq<string>)
    ensures WithoutKeys(WithoutKeys(q, keys), keys) == WithoutKeys(q, keys)
  {
  }

  /** A parameter whose value is null never appears in a produced URL. */
  lemma NullValuesOmitted(q: Query, path: string, k: string)
    requires k in q && q[k].None?
    ensures k !in StringifyUrl(path, q).query
  {
  }
}
