/**
 * What the analyzers report when a page cannot be loaded: the failure
 * text is classified as a timeout or not, and a non-timeout failure is
 * quoted, cut to its first 100 characters, in the access-error notice.
 * The notices' fixed wording is not modelled, only which notice it is and
 * the quoted part.
 */
module AccessErrors {
  import opened Text

  /** `"Timeout" in msg or "timeout" in msg.lower()` */
  predicate IsTimeout(message: string)
  {
    Contains(message, "Timeout") || Contains(Lower(message), "timeout")
  }

  /** The case-sensitive `"Timeout"` test adds nothing: a failure is a timeout exactly when its lower-cased text holds `timeout`. */
  lemma TimeoutIffLowered(message: string)
    ensures IsTimeout(message) <==> Contains(Lower(message), "timeout")
  {
    if Contains(message, "Timeout") {
      ContainsLower(message, "Timeout");
      assert Lower("Timeout") == "timeout";
    }
  }

  /** `_handle_website_timeout` or `_handle_website_error`; the latter quotes `error_message[:100]`. */
  datatype Notice = TimeoutNotice | ErrorNotice(technical: string)

  /** The notice an analyzer returns for a failure whose text is `message`. */
  function NoticeFor(message: string): (n: Notice)
    ensures n.TimeoutNotice? <==> Contains(Lower(message), "timeout")
    ensures n.ErrorNotice? ==> |n.technical| <= 100 && |n.technical| <= |message| && n.technical == message[..|n.technical|]
    ensures n.ErrorNotice? && |message| <= 100 ==> n.technical == message
    ensures n.ErrorNotice? && |message| > 100 ==> |n.technical| == 100
  {
    TimeoutIffLowered(message);
    if IsTimeout(message) then TimeoutNotice else ErrorNotice(Take(message, 100))
  }
}
