/**
 * Filling in the Spotify credentials of the command-line arguments: a value
 * given on the command line wins, then the environment, then the
 * credentials file.
 */
module CopenhellBot {
  import opened Wrappers
  import opened Strings

  /** The environment variables and credentials-file keys consulted, in order. */
  const ValidTokens: seq<string> := ["CLIENT_ID", "CLIENT_SECRET", "REDIRECT_URI", "PLAYLIST_URI"]

  /** The attribute names of the arguments object that hold credentials. */
  predicate IsCredentialAttribute(name: string) {
    name == "client_id" || name == "client_secret" || name == "redirect_uri" || name == "playlist_uri"
  }

  /** The position in `ValidTokens` of the token an attribute belongs to. */
  function AttributeIndex(name: string): (k: nat)
    requires IsCredentialAttribute(name)
    ensures k < |ValidTokens|
  {
    if name == "client_id" then 0
    else if name == "client_secret" then 1
    else if name == "redirect_uri" then 2
    else 3
  }

  /**
   * The parsed command line. A credential option given without a value is
   * `None` in the source; here it is the empty string, which the code treats
   * alike. `--country` and `--n-tracks` given without a value are `None`, kept
   * here as `Option` values.
   */
  class Args {
    var clientId: string
    var clientSecret: string
    var redirectUri: string
    var playlistUri: string
    var country: Option<string>
    var nTracks: Option<int>
    var quiet: bool

    constructor (clientId: string, clientSecret: string, redirectUri: string, playlistUri: string,
                 country: Option<string>, nTracks: Option<int>, quiet: bool)
      ensures Credentials() == [clientId, clientSecret, redirectUri, playlistUri]
      ensures this.country == country && this.nTracks == nTracks && this.quiet == quiet
    {
      this.clientId := clientId;
      this.clientSecret := clientSecret;
      this.redirectUri := redirectUri;
      this.playlistUri := playlistUri;
      this.country := country;
      this.nTracks := nTracks;
      this.quiet := quiet;
    }

    /** The four credential attributes, in the order of `ValidTokens`. */
    function Credentials(): (values: seq<string>)
      reads this
      ensures |values| == |ValidTokens|
    {
      [clientId, clientSecret, redirectUri, playlistUri]
    }

    /** `getattr(args, name)` */
    function GetAttr(name: string): (value: string)
      requires IsCredentialAttribute(name)
      reads this
      ensures value == Credentials()[AttributeIndex(name)]
    {
      if name == "client_id" then clientId
      else if name == "client_secret" then clientSecret
      else if name == "redirect_uri" then redirectUri
      else playlistUri
    }

    /** `setattr(args, name, value)`: that attribute changes, no other. */
    method SetAttr(name: string, value: string)
      requires IsCredentialAttribute(name)
      modifies this
      ensures Credentials() == old(Credentials())[AttributeIndex(name) := value]
      ensures country == old(country) && nTracks == old(nTracks) && quiet == old(quiet)
    {
      if name == "client_id" {
        clientId := value;
      } else if name == "client_secret" {
        clientSecret := value;
      } else if name == "redirect_uri" {
        redirectUri := value;
      } else {
        playlistUri := value;
      }
    }
  }

  /** The attribute that holds a token: its lowercased name. */
  lemma AttributeNames()
    ensures Lower(ValidTokens[0]) == "client_id"
    ensures Lower(ValidTokens[1]) == "client_secret"
    ensures Lower(ValidTokens[2]) == "redirect_uri"
    ensures Lower(ValidTokens[3]) == "playlist_uri"
  {
    ClientIdAttribute();
    ClientSecretAttribute();
    RedirectUriAttribute();
    PlaylistUriAttribute();
  }

  lemma ClientIdAttribute()
    ensures Lower("CLIENT_ID") == "client_id"
  {
  }

  lemma ClientSecretAttribute()
    ensures Lower("CLIENT_SECRET") == "client_secret"
  {
  }

  lemma RedirectUriAttribute()
    ensures Lower("REDIRECT_URI") == "redirect_uri"
  {
  }

  lemma PlaylistUriAttribute()
    ensures Lower("PLAYLIST_URI") == "playlist_uri"
  {
  }

  /** The attribute of each token is the one at the token's position. */
  lemma AttributeOfToken(k: nat)
    requires k < |ValidTokens|
    ensures IsCredentialAttribute(Lower(ValidTokens[k])) && AttributeIndex(Lower(ValidTokens[k])) == k
  {
    AttributeNames();
  }

  /** `m.get(key)` is truthy: the key is present with a non-empty value. */
  predicate HasValue(m: map<string, string>, key: string) {
    key in m && m[key] != ""
  }

  /** The value one credential ends with, given its command-line value. */
  function Layered(current: string, token: string, env: map<string, string>, creds: map<string, string>): string {
    if current != "" then current
    else if HasValue(env, token) then env[token]
    else if HasValue(creds, token) then creds[token]
    else current
  }

  /** All four credentials after the loop, from their command-line values. */
  function Filled(values: seq<string>, env: map<string, string>, creds: map<string, string>): (filled: seq<string>)
    requires |values| == |ValidTokens|
    ensures |filled| == |ValidTokens|
  {
    seq(|ValidTokens|, k requires 0 <= k < |ValidTokens| => Layered(values[k], ValidTokens[k], env, creds))
  }

  /**
   * The precedence, in all its cases: a command-line value stays; else a
   * non-empty environment value is taken, whatever the file says; else a
   * non-empty file value; else the credential stays empty.
   */
  lemma LayeredPrecedence(current: string, token: string, env: map<string, string>, creds: map<string, string>)
    ensures var r := Layered(current, token, env, creds);
      && (current != "" ==> r == current)
      && (current == "" && HasValue(env, token) ==> r == env[token])
      && (current == "" && !HasValue(env, token) && HasValue(creds, token) ==> r == creds[token])
      && (current == "" && !HasValue(env, token) && !HasValue(creds, token) ==> r == "")
  {
  }

  /** The result is empty only when no source had a value. */
  lemma LayeredEmpty(current: string, token: string, env: map<string, string>, creds: map<string, string>)
    ensures Layered(current, token, env, creds) == ""
        <==> current == "" && !HasValue(env, token) && !HasValue(creds, token)
  {
  }

  /** Filling twice with the same environment and file gives the same credentials as once. */
  lemma {:induction false} FilledIdempotent(values: seq<string>, env: map<string, string>, creds: map<string, string>)
    requires |values| == |ValidTokens|
    ensures Filled(Filled(values, env, creds), env, creds) == Filled(values, env, creds)
  {
    var once := Filled(values, env, creds);
    forall k | 0 <= k < |ValidTokens|
      ensures Filled(once, env, creds)[k] == once[k]
    {
      LayeredEmpty(values[k], ValidTokens[k], env, creds);
    }
  }

  /**
   * `fill_env_creds`: for each token whose attribute is empty, take the
   * environment value, else the credentials-file value, when non-empty.
   * `country`, `n_tracks` and `quiet` are left alone.
   */
  method FillEnvCreds(args: Args, env: map<string, string>, creds: map<string, string>)
    modifies args
    ensures args.Credentials() == Filled(old(args.Credentials()), env, creds)
    ensures args.country == old(args.country) && args.nTracks == old(args.nTracks) && args.quiet == old(args.quiet)
  {
    ghost var before := args.Credentials();
    for i := 0 to |ValidTokens|
      invariant forall k :: 0 <= k < |ValidTokens| ==>
        args.Credentials()[k] == if k < i then Layered(before[k], ValidTokens[k], env, creds) else before[k]
      invariant args.country == old(args.country) && args.nTracks == old(args.nTracks) && args.quiet == old(args.quiet)
    {
      var token := ValidTokens[i];
      var name := Lower(token);
      AttributeOfToken(i);
      if args.GetAttr(name) == "" {
        if token in env && env[token] != "" {
          args.SetAttr(name, env[token]);
        } else if token in creds && creds[token] != "" {
          args.SetAttr(name, creds[token]);
        }
      }
    }
  }
}
