/**
 * Start-up validation of the process environment (`validate_env_vars`).
 * The environment is a map from variable names to values; `os.getenv(name)`
 * is falsy when the name is absent or bound to the empty string.
 */
module Env {

  type Environ = map<string, string>

  /** The credentials the bot needs, in the order it checks them. */
  const RequiredVars: seq<string> :=
    ["BEARER_TOKEN", "API_KEY", "API_SECRET", "ACCESS_TOKEN", "ACCESS_TOKEN_SECRET", "NEWS_API_KEY"]

  /** `os.getenv(name)` is truthy. */
  predicate IsSet(env: Environ, name: string)
  {
    name in env && env[name] != ""
  }

  /** `[var for var in names if not os.getenv(var)]` */
  function MissingFrom(env: Environ, names: seq<string>): (missing: seq<string>)
    ensures |missing| <= |names|
    ensures forall v :: v in missing <==> v in names && !IsSet(env, v)
  {
    if names == [] then [] else MissingOne(env, names[0]) + MissingFrom(env, names[1..])
  }

  /** What the comprehension contributes for one name. */
  function MissingOne(env: Environ, name: string): seq<string>
  {
    if IsSet(env, name) then [] else [name]
  }

  /** The list comprehension keeps the order of the names it filters: filtering a concatenation concatenates the filtered parts. */
  lemma {:induction false} MissingFromAppend(env: Environ, a: seq<string>, b: seq<string>)
    ensures MissingFrom(env, a + b) == MissingFrom(env, a) + MissingFrom(env, b)
  {
    if a == [] {
      assert a + b == b;
    } else {
      var head := MissingOne(env, a[0]);
      assert MissingFrom(env, a + b) == head + MissingFrom(env, a[1..] + b) by {
        assert (a + b)[0] == a[0] && (a + b)[1..] == a[1..] + b;
      }
      MissingFromAppend(env, a[1..], b);
      assert head + (MissingFrom(env, a[1..]) + MissingFrom(env, b))
          == (head + MissingFrom(env, a[1..])) + MissingFrom(env, b);
    }
  }

  /** The missing-variable list that `validate_env_vars` reports. */
  function MissingVars(env: Environ): seq<string>
  {
    MissingFrom(env, RequiredVars)
  }

  /** `validate_env_vars()`: true exactly when no required variable is missing. */
  function ValidateEnvVars(env: Environ): (ok: bool)
    ensures ok <==> forall v :: v in RequiredVars ==> IsSet(env, v)
    ensures ok <==> MissingVars(env) == []
  {
    var missing := MissingVars(env);
    assert missing != [] ==> missing[0] in missing;
    missing == []
  }
}
