/**
 * `generate_random_string(length)`: `length` characters drawn with
 * `random.choice` from `string.ascii_letters + string.digits`, and the IAM
 * role name built from ten of them.  The random source is a parameter:
 * `draw(i)` is the position `random.choice` picks on its i-th call.
 */
module RandomId {

  /** `n` consecutive characters starting at `first`. */
  function CharRange(first: char, n: nat): (r: string)
    requires first as int + n <= 0xD800
    ensures |r| == n
    ensures forall i :: 0 <= i < n ==> r[i] as int == first as int + i
  {
    seq(n, i requires 0 <= i < n => (first as int + i) as char)
  }

  /** `string.ascii_letters + string.digits` */
  const Alphabet: string := CharRange('a', 26) + CharRange('A', 26) + CharRange('0', 10)

  predicate IsAsciiLetterOrDigit(c: char) {
    ('a' <= c <= 'z') || ('A' <= c <= 'Z') || ('0' <= c <= '9')
  }

  /** A position `random.choice(Alphabet)` may pick. */
  type AlphabetIndex = i: nat | i < 62

  /** The alphabet holds exactly the ASCII letters and digits. */
  lemma AlphabetIsAlnum()
    ensures |Alphabet| == 62
    ensures forall i :: 0 <= i < |Alphabet| ==> IsAsciiLetterOrDigit(Alphabet[i])
    ensures forall c: char :: IsAsciiLetterOrDigit(c) ==> c in Alphabet
  {
    var lower, upper, digits := CharRange('a', 26), CharRange('A', 26), CharRange('0', 10);
    assert Alphabet == lower + upper + digits;
    forall c: char | IsAsciiLetterOrDigit(c) ensures c in Alphabet {
      if 'a' <= c <= 'z' {
        assert Alphabet[c as int - 'a' as int] == c;
      } else if 'A' <= c <= 'Z' {
        assert Alphabet[26 + c as int - 'A' as int] == c;
      } else {
        assert Alphabet[52 + c as int - '0' as int] == c;
      }
    }
  }

  /** `''.join(random.choice(letters) for _ in range(length))` */
  function GenerateRandomString(length: nat, draw: nat -> AlphabetIndex): (s: string)
    ensures |s| == length
    ensures forall i :: 0 <= i < |s| ==> IsAsciiLetterOrDigit(s[i])
  {
    AlphabetIsAlnum();
    seq(length, i requires 0 <= i < length => Alphabet[draw(i)])
  }

  const RolePrefix := "AmazonBedrockExecutionRoleForAgents_"

  /** The role name `create_agent_role` gives the agent's execution role. */
  function RoleName(draw: nat -> AlphabetIndex): (name: string)
    ensures |name| == |RolePrefix| + 10
    ensures name[..|RolePrefix|] == RolePrefix
    ensures forall i :: |RolePrefix| <= i < |name| ==> IsAsciiLetterOrDigit(name[i])
  {
    var suffix := GenerateRandomString(10, draw);
    assert forall i :: |RolePrefix| <= i < |RolePrefix| + 10 ==> (RolePrefix + suffix)[i] == suffix[i - |RolePrefix|];
    RolePrefix + suffix
  }
}
