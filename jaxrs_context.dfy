/** JaxRsContext: the server port and root path used to build the local
  * base URL of JAX-RS endpoints, stored once per code-lens request. */
module JaxRs {
  import opened Wrappers
  import opened JavaStrings

  /** A Java int. */
  type Int32 = x: int | -0x8000_0000 <= x < 0x8000_0000

  const DefaultPort: Int32 := 8080
  const UrlPrefix: string := "http://localhost:"

  /** The URL getLocalBaseURL builds from a port and a root path. */
  function LocalBaseURL(port: Int32, rootPath: Option<string>): (url: string)
    ensures |url| > |UrlPrefix| && url[..|UrlPrefix|] == UrlPrefix
    ensures rootPath.None? ==> url == UrlPrefix + IntToString(port)
    ensures rootPath.Some? ==> url == UrlPrefix + IntToString(port) + rootPath.value
  {
    UrlPrefix + IntToString(port) + (if rootPath.Some? then rootPath.value else "")
  }

  /** The port can be read back from the URL: what follows the prefix, up to
    * the root path, is the port in decimal. */
  lemma PortReadsBack(port: Int32, rootPath: Option<string>)
    ensures var url := LocalBaseURL(port, rootPath);
      var rootLength := if rootPath.Some? then |rootPath.value| else 0;
      ParseDecimal(url[|UrlPrefix|..|url| - rootLength]) == Some(port)
  {
    var url := LocalBaseURL(port, rootPath);
    var rootLength := if rootPath.Some? then |rootPath.value| else 0;
    assert url[|UrlPrefix|..|url| - rootLength] == IntToString(port);
    IntToStringParses(port);
  }

  class JaxRsContext {
    var serverPort: Int32
    var rootPath: Option<string>

    constructor ()
      ensures serverPort == DefaultPort && rootPath.None?
      ensures GetLocalBaseURL() == "http://localhost:8080"
    {
      serverPort := DefaultPort;
      rootPath := None;
      new;
      assert IntToString(8080) == "8080" by {
        assert NatToString(808) == "808" by {
          assert NatToString(80) == "80";
        }
      }
    }

    method SetServerPort(port: Int32)
      modifies this
      ensures serverPort == port && rootPath == old(rootPath)
    {
      serverPort := port;
    }

    method SetRootPath(path: Option<string>)
      modifies this
      ensures rootPath == path && serverPort == old(serverPort)
    {
      rootPath := path;
    }

    function GetLocalBaseURL(): string
      reads this
    {
      LocalBaseURL(serverPort, rootPath)
    }
  }

  /** The per-request JavaCodeLensContext, as far as it holds a JaxRsContext
    * under the class's name. */
  class CodeLensContext {
    var jaxRsContext: Option<JaxRsContext>

    constructor ()
      ensures jaxRsContext.None?
    {
      jaxRsContext := None;
    }
  }

  /** getJaxRsContext: the stored context, or a new one stored for next time. */
  method GetJaxRsContext(context: CodeLensContext) returns (c: JaxRsContext)
    modifies context
    ensures context.jaxRsContext == Some(c)
    ensures old(context.jaxRsContext).Some? ==> c == old(context.jaxRsContext).value
    ensures old(context.jaxRsContext).None? ==> fresh(c) && c.serverPort == DefaultPort && c.rootPath.None?
  {
    if context.jaxRsContext.Some? {
      return context.jaxRsContext.value;
    }
    c := new JaxRsContext();
    context.jaxRsContext := Some(c);
  }

  /** Two lookups on the same code-lens context give the same instance. */
  method SameInstance(context: CodeLensContext) returns (first: JaxRsContext, second: JaxRsContext)
    modifies context
    ensures first == second
  {
    first := GetJaxRsContext(context);
    second := GetJaxRsContext(context);
  }
}
