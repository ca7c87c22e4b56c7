/** The password hashing the application borrows from werkzeug: `generate_password_hash`
    stores "method$salt$digest" and `check_password_hash` splits that text and recomputes the
    digest. The key-derivation function itself (PBKDF2-SHA256) is a foreign one-way function:
    it is a parameter here, so every property below holds whatever that function is. */
module Passwords {

  import opened Options
  import opened Text

  /** The key-derivation function: (stored method text, salt, password) to digest text. */
  type Kdf = (string, string, string) -> string

  /** The method the application asks for. */
  const HashMethod: string := "pbkdf2:sha256"

  /** The method text werkzeug stores in front of the salt: the requested method followed by the
      iteration count it used, "pbkdf2:sha256:<iterations>". The default count depends on the
      werkzeug version, so it is a parameter. */
  function StoredMethod(iterations: nat): (m: string)
    ensures HashMethod + ":" <= m
    ensures '$' !in m
  {
    var count := DecimalText(iterations);
    assert '$' !in count by {
      forall i | 0 <= i < |count| ensures count[i] != '$' {
        assert IsDigit(count[i]);
      }
    }
    HashMethod + ":" + count
  }

  /** The check reads the iteration count back from the stored method text, after its second ':'. */
  lemma IterationsReadBack(iterations: nat)
    ensures DecimalValue(AfterFirst(AfterFirst(StoredMethod(iterations), ':'), ':')) == Some(iterations)
  {
    var count := DecimalText(iterations);
    assert StoredMethod(iterations) == "pbkdf2" + [':'] + ("sha256" + [':'] + count);
    SplitJoined("pbkdf2", ':', "sha256" + [':'] + count);
    SplitJoined("sha256", ':', count);
    DecimalValueText(iterations);
  }

  /** werkzeug's salts are drawn from ASCII letters and digits. */
  predicate IsSaltChar(c: char)
  {
    'a' <= c <= 'z' || 'A' <= c <= 'Z' || '0' <= c <= '9'
  }

  /** A salt as `generate_password_hash(..., salt_length=8)` draws it. */
  predicate IsSalt(salt: string)
  {
    |salt| == 8 && forall i :: 0 <= i < |salt| ==> IsSaltChar(salt[i])
  }

  /** `generate_password_hash(password, method="pbkdf2:sha256", salt_length=8)`, with the random
      salt and werkzeug's iteration count passed in: "method:iterations$salt$digest". */
  function GeneratePasswordHash(kdf: Kdf, iterations: nat, password: string, salt: string): (stored: string)
    requires IsSalt(salt)
    ensures StoredMethod(iterations) + "$" <= stored
  {
    var scheme := StoredMethod(iterations);
    scheme + "$" + salt + "$" + kdf(scheme, salt, password)
  }

  /** `check_password_hash(stored, password)`: a stored text with fewer than two '$' never matches;
      otherwise the method and salt before the first two '$' are used to recompute the digest,
      which must equal the rest of the text. */
  function CheckPasswordHash(kdf: Kdf, stored: string, password: string): (ok: bool)
    ensures ok ==> Count(stored, '$') >= 2
  {
    if Count(stored, '$') < 2 then false
    else
      var scheme := BeforeFirst(stored, '$');
      var rest := AfterFirst(stored, '$');
      var salt := BeforeFirst(rest, '$');
      kdf(scheme, salt, password) == AfterFirst(rest, '$')
  }

  /** A password checks against the hash generated from it exactly when it derives the same
      digest under the same salt: in particular the password itself always checks. */
  lemma {:induction false} CheckGeneratedHash(kdf: Kdf, iterations: nat, password: string, salt: string, attempt: string)
    requires IsSalt(salt)
    ensures var scheme := StoredMethod(iterations);
            CheckPasswordHash(kdf, GeneratePasswordHash(kdf, iterations, password, salt), attempt)
            <==> kdf(scheme, salt, attempt) == kdf(scheme, salt, password)
    ensures CheckPasswordHash(kdf, GeneratePasswordHash(kdf, iterations, password, salt), password)
  {
    var scheme := StoredMethod(iterations);
    var digest := kdf(scheme, salt, password);
    var stored := GeneratePasswordHash(kdf, iterations, password, salt);
    assert stored == scheme + ['$'] + (salt + ['$'] + digest);
    SplitJoined(scheme, '$', salt + ['$'] + digest);
    assert '$' !in salt by {
      forall i | 0 <= i < |salt| ensures salt[i] != '$' {
        assert IsSaltChar(salt[i]);
      }
    }
    SplitJoined(salt, '$', digest);
    CountJoined(scheme, '$', salt + ['$'] + digest);
    CountJoined(salt, '$', digest);
  }
}
