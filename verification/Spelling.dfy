// The words the HTTP code compares against, spelled out.
module Spelling {
  import opened Bytes
  import Names = FieldNames
  import Framing = FramingChoice
  import Heads = RequestHead
  import Http2 = Http2Head

  predicate Spells(b: bytes, s: string) {
    |b| == |s| && forall i :: 0 <= i < |s| ==> b[i] == s[i] as int
  }

  lemma FramingWords()
    ensures Spells(Names.CONTENT_LENGTH, "content-length")
    ensures Spells(Names.TRANSFER_ENCODING, "transfer-encoding")
    ensures Spells(Names.CHUNKED, "chunked")
  {
  }

  lemma RoutingWords()
    ensures Spells(Names.HOST, "host")
    ensures Spells(Names.TRAILER, "trailer")
    ensures Spells(Names.CONNECTION, "connection")
    ensures Spells(Names.UPGRADE, "upgrade")
    ensures Spells(Names.EXPECT, "expect")
  {
  }

  lemma OptionWords()
    ensures Spells(Names.CLOSE, "close")
    ensures Spells(Names.KEEP_ALIVE, "keep-alive")
    ensures Spells(Names.CONTINUE_100, "100-continue")
  {
  }

  lemma HopWords()
    ensures Spells(Names.PROXY_CONNECTION, "proxy-connection")
    ensures Spells(Names.TE, "te")
    ensures Spells(Names.TRAILERS, "trailers")
  {
  }

  lemma StartLineWords()
    ensures Spells(Framing.HEAD, "HEAD")
    ensures Spells(Framing.CONNECT, "CONNECT")
    ensures Spells(Heads.HTTP_1_0, "HTTP/1.0")
    ensures Spells(Heads.HTTP_1_1, "HTTP/1.1")
  {
  }

  lemma PseudoHeaderWords()
    ensures Spells(Http2.METHOD, ":method")
    ensures Spells(Http2.SCHEME, ":scheme")
    ensures Spells(Http2.AUTHORITY, ":authority")
    ensures Spells(Http2.PATH, ":path")
    ensures Spells(Http2.PROTOCOL, ":protocol")
    ensures Spells(Http2.STATUS, ":status")
    ensures Spells(Http2.SLASH, "/")
  {
  }
}
