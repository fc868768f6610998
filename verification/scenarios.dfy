/**
  The scenario the package's tests exercise: a context carrying a request
  id and a logger with one extractor that reads it.
 */
module Scenarios {
  import Clog
  import Text

  /** Reads the request id a context carries, or nothing. */
  function RequestId(ctx: map<string, string>): string
  {
    if "requestId" in ctx then ctx["requestId"] else ""
  }

  /**
    A context carrying a request id and one extractor that reads it: any
    severity writes its level, then the id, then the body.
   */
  lemma RequestIdScenario(level: string, content: string)
    ensures Clog.Output(Clog.Logger([RequestId]), map["requestId" := "test-request-id"], level, content)
         == "|" + level + "|" + "test-request-id" + Clog.Separator + content
  {
    var l, ctx := Clog.Logger([RequestId]), map["requestId" := "test-request-id"];
    assert Clog.Tags(l.optional, ctx) == ["test-request-id"];
    var fields := [level] + ["test-request-id"];
    assert fields[1..] == ["test-request-id"];
    assert Text.Join(fields, "|") == level + "|" + "test-request-id";
  }
}
