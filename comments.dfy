/** The per-chapter comment thread: the record a submission creates and the rule that
    decides whether a submission is accepted. */
module Comments {
  import opened Wrappers
  import opened Text

  /** One entry of a chapter's comment log; `time` is the submitter's local date and time,
      kept as an opaque string. */
  datatype Comment = Comment(name: string, text: string, time: string)

  /** The record a submission of the raw `name` and `text` fields creates, or None when
      it is refused because either field is empty or white space only. */
  function NewComment(name: string, text: string, time: string): (c: Option<Comment>)
    ensures c.None? <==> AllWhitespace(name) || AllWhitespace(text)
    ensures c.Some? ==> c.value.name != [] && c.value.text != [] && c.value.time == time
    ensures c.Some? ==> c.value.name == Trim(name) && c.value.text == Trim(text)
  {
    var n := Trim(name);
    var t := Trim(text);
    if n == [] || t == [] then None else Some(Comment(n, t, time))
  }
}
