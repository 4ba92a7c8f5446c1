/** The viewing-key lookup of the event handler
    (src/pages/Swap/SwapTab.tsx:227-242): up to three attempts, stopping at
    the first non-empty key. The wallet's answers are an input: attempt `i`
    either throws or returns a string. The pauses between attempts are not
    modelled. */
module ViewingKeys {

  datatype KeyReply = Threw | Returned(key: string)

  const MaxTries: nat := 3

  /** The value `viewingKey` holds after an attempt: a throw leaves it as it
      was, which is always falsy here (`undefined` and `""` are both `""`). */
  function KeyOf(reply: KeyReply): string
  {
    if reply.Returned? then reply.key else ""
  }

  /** The key the loop ends with, from attempt `i` (0-based) on. */
  function KeyFrom(reply: nat -> KeyReply, i: nat): string
    requires i < MaxTries
    decreases MaxTries - i
  {
    if KeyOf(reply(i)) != "" || i == MaxTries - 1 then KeyOf(reply(i)) else KeyFrom(reply, i + 1)
  }

  /** How many attempts the loop makes, from attempt `i` on. */
  function TriesFrom(reply: nat -> KeyReply, i: nat): nat
    requires i < MaxTries
    decreases MaxTries - i
  {
    if KeyOf(reply(i)) != "" || i == MaxTries - 1 then i + 1 else TriesFrom(reply, i + 1)
  }

  function ViewingKey(reply: nat -> KeyReply): string
  {
    KeyFrom(reply, 0)
  }

  function Tries(reply: nat -> KeyReply): nat
  {
    TriesFrom(reply, 0)
  }

  /** The retry loop: `tries` counts attempts and the loop stops at a
      non-empty key or after the third attempt. */
  method ResolveViewingKey(reply: nat -> KeyReply) returns (viewingKey: string, tries: nat)
    ensures viewingKey == ViewingKey(reply) && tries == Tries(reply)
    ensures 1 <= tries <= MaxTries
    ensures viewingKey != "" ==> viewingKey == KeyOf(reply(tries - 1))
    ensures forall i :: 0 <= i < tries - 1 ==> KeyOf(reply(i)) == ""
  {
    viewingKey := "";
    tries := 0;
    while true
      invariant 0 <= tries < MaxTries && viewingKey == ""
      invariant KeyFrom(reply, tries) == ViewingKey(reply) && TriesFrom(reply, tries) == Tries(reply)
      invariant forall i :: 0 <= i < tries ==> KeyOf(reply(i)) == ""
      decreases MaxTries - tries
    {
      tries := tries + 1;
      match reply(tries - 1) {
        case Returned(k) => viewingKey := k;
        case Threw =>
      }
      if viewingKey != "" || tries == MaxTries {
        break;
      }
    }
  }

  /** The loop ends with a non-empty key exactly when one of the three
      attempts returns one, and then it is the first such key. */
  lemma {:induction false} KeyFound(reply: nat -> KeyReply, i: nat)
    requires i < MaxTries
    ensures i < TriesFrom(reply, i) <= MaxTries
    ensures KeyFrom(reply, i) != "" <==> exists j :: i <= j < MaxTries && KeyOf(reply(j)) != ""
    ensures KeyFrom(reply, i) != "" ==>
      KeyFrom(reply, i) == KeyOf(reply(TriesFrom(reply, i) - 1)) &&
      forall j :: i <= j < TriesFrom(reply, i) - 1 ==> KeyOf(reply(j)) == ""
    decreases MaxTries - i
  {
    if KeyOf(reply(i)) == "" && i < MaxTries - 1 {
      KeyFound(reply, i + 1);
      assert (exists j :: i <= j < MaxTries && KeyOf(reply(j)) != "")
         ==> (exists j :: i + 1 <= j < MaxTries && KeyOf(reply(j)) != "");
    }
  }

  /** Three failed attempts leave the key empty (not an error) after exactly three tries. */
  lemma ThreeFailures(reply: nat -> KeyReply)
    requires forall j :: 0 <= j < MaxTries ==> KeyOf(reply(j)) == ""
    ensures ViewingKey(reply) == "" && Tries(reply) == MaxTries
  {
    assert KeyOf(reply(0)) == "" && KeyOf(reply(1)) == "" && KeyOf(reply(2)) == "";
  }

  /** Two failures then a key on the third attempt: the key is used. */
  lemma SucceedsOnThirdTry(reply: nat -> KeyReply, k: string)
    requires KeyOf(reply(0)) == "" && KeyOf(reply(1)) == "" && reply(2) == Returned(k) && k != ""
    ensures ViewingKey(reply) == k && Tries(reply) == 3
  {
  }
}
