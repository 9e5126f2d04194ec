/**
 * The moderation gate of robot.py:207-211: a reply that contains any forbidden URL is
 * replaced, as a whole, by a fixed notice.
 */
module Moderation {
  import opened Text

  const ForbiddenUrls: seq<string> := ["zuotiya.com"]
  const BlockedText: string := "内容包含不允许的 URL，不会发送。"

  predicate HasForbiddenUrl(text: string) {
    exists k :: 0 <= k < |ForbiddenUrls| && Contains(text, ForbiddenUrls[k])
  }

  /** `any(url in text for url in forbidden_urls)`: the URLs are tried in order until one is found. */
  method ContainsForbiddenUrl(text: string) returns (found: bool)
    ensures found <==> HasForbiddenUrl(text)
  {
    found := false;
    var i := 0;
    while i < |ForbiddenUrls| && !found
      invariant 0 <= i <= |ForbiddenUrls|
      invariant found <==> exists k :: 0 <= k < i && Contains(text, ForbiddenUrls[k])
    {
      found := Contains(text, ForbiddenUrls[i]);
      i := i + 1;
    }
  }

  /** A forbidden URL is any one of the list occurring at some position of the text. */
  lemma HasForbiddenUrlIff(text: string)
    ensures HasForbiddenUrl(text) <==> exists i :: OccursAt(text, "zuotiya.com", i)
  {
    assert ForbiddenUrls[0] == "zuotiya.com";
    ContainsIff(text, "zuotiya.com");
  }

  /** Text without the letter `z` holds no forbidden URL. */
  lemma WithoutZAllowed(text: string)
    requires 'z' !in text
    ensures !HasForbiddenUrl(text)
  {
    assert ForbiddenUrls[0][0] == 'z';
    MissingFirstCharNotContains(text, ForbiddenUrls[0]);
  }

  /** The gate: a reply with a forbidden URL is replaced in full, any other reply passes unchanged. */
  function Moderate(text: string): (r: string)
    ensures !HasForbiddenUrl(r)
    ensures HasForbiddenUrl(text) ==> r == BlockedText
    ensures !HasForbiddenUrl(text) ==> r == text
  {
    if HasForbiddenUrl(text) then
      WithoutZAllowed(BlockedText);
      BlockedText
    else text
  }

  /** The gate as the handler runs it: the reply is overwritten when a forbidden URL is found. */
  method ApplyGate(reply: string) returns (result: string)
    ensures result == Moderate(reply)
  {
    result := reply;
    var blocked := ContainsForbiddenUrl(result);
    if blocked {
      result := BlockedText;
    }
  }

  /** Passing the gate twice is the same as passing it once. */
  lemma ModerateIdempotent(text: string)
    ensures Moderate(Moderate(text)) == Moderate(text)
  {
  }
}
