/**
 * bootstrap/logicserver.go: the context injector of the logic server.
 * Inject functions are bound per gRPC service name; the interceptor
 * rewrites the context of calls to a bound service before running the
 * handler. The rest of the logic server is server wiring.
 */
module BootstrapLogic {
  import opened Wrappers
  import opened Text

  datatype InjectPanic = AlreadyBound(serviceName: string) | IndexOutOfRange

  /** strings.SplitN(s, "/", 3): at most three parts, the last keeping any further "/". */
  function SplitN3(s: string): (r: seq<string>)
    ensures 1 <= |r| <= 3
    ensures |r| == 1 <==> '/' !in s
    ensures |r| == 1 ==> r[0] == s
    ensures |r| == 2 ==> s == r[0] + ['/'] + r[1] && '/' !in r[0] && '/' !in r[1]
    ensures |r| == 3 ==> s == r[0] + ['/'] + (r[1] + ['/'] + r[2]) && '/' !in r[0] && '/' !in r[1]
  {
    var (a, rest, found) := Cut(s, '/');
    if !found then [s]
    else
      var (b, c, found2) := Cut(rest, '/');
      if !found2 then [a, rest] else [a, b, c]
  }

  /** The service name Intercept reads from "/service/method". */
  lemma ServiceOfFullMethod(service: string, methodName: string)
    requires '/' !in service
    ensures |SplitN3("/" + service + "/" + methodName)| >= 2
    ensures SplitN3("/" + service + "/" + methodName)[1] == service
  {
    assert "/" + service + "/" + methodName == [] + ['/'] + (service + "/" + methodName);
    CutAtFirst([], service + "/" + methodName, '/');
    assert service + "/" + methodName == service + ['/'] + methodName;
    CutAtFirst(service, methodName, '/');
  }

  class ContextInjector<C> {
    var services: map<string, C -> C>

    /** NewContextInjector: no bindings. */
    constructor ()
      ensures services == map[]
    {
      services := map[];
    }

    /** Bind: stores the inject function, panicking when the name is already bound. */
    method Bind(serviceName: string, injectFunc: C -> C) returns (p: Option<InjectPanic>)
      modifies this
      ensures serviceName in old(services) ==> p == Some(AlreadyBound(serviceName)) && services == old(services)
      ensures serviceName !in old(services) ==> p.None? && services == old(services)[serviceName := injectFunc]
    {
      if serviceName in services {
        return Some(AlreadyBound(serviceName));
      }
      services := services[serviceName := injectFunc];
      return None;
    }

    /**
     * Intercept: the second "/"-separated part of the full method names
     * the service; a bound service has the handler run on the injected
     * context, any other on the original. A full method without "/"
     * panics on the missing part.
     */
    function Intercept<R>(ctx: C, fullMethod: string, handler: C -> R): (r: Result<R, InjectPanic>)
      reads this
      ensures '/' !in fullMethod <==> r == Err(IndexOutOfRange)
    {
      var paths := SplitN3(fullMethod);
      if |paths| < 2 then Err(IndexOutOfRange)
      else if paths[1] in services then Ok(handler(services[paths[1]](ctx)))
      else Ok(handler(ctx))
    }
  }

  /**
   * For a full method "/service/method" the interceptor runs the handler on
   * the context the service's inject function gives, or on the original
   * context when the service is not bound.
   */
  lemma InterceptByService<C, R>(ci: ContextInjector<C>, ctx: C, service: string, methodName: string, handler: C -> R)
    requires '/' !in service
    ensures service in ci.services ==> ci.Intercept(ctx, "/" + service + "/" + methodName, handler) == Ok(handler(ci.services[service](ctx)))
    ensures service !in ci.services ==> ci.Intercept(ctx, "/" + service + "/" + methodName, handler) == Ok(handler(ctx))
  {
    ServiceOfFullMethod(service, methodName);
  }
}
