/** The CORS origin decision made for every request. */
module Cors {
  import opened Records

  /** The callers allowed to make cross-origin requests. */
  const AllowedOrigins: seq<string> := [
    "https://my-mern-client-git-main-rami-abou-khalils-projects.vercel.app",
    "https://my-mern-client-rami-abou-khalils-projects.vercel.app",
    "https://my-mern-client-five.vercel.app",
    "https://book.aurastudio-lb.com",
    "http://localhost:3000"
  ]

  datatype Decision = Allow | Reject(message: string)

  /** `Array.prototype.includes` on strings: a scan from the front. */
  function Includes(list: seq<string>, x: string): (r: bool)
    ensures r <==> x in list
  {
    if list == [] then false else list[0] == x || Includes(list[1..], x)
  }

  /** The `origin` callback: a request without an `Origin` header (or with an
      empty one) is let through, so is one from an allowed origin; any other
      is refused with "Origin not allowed by CORS". */
  function DecideOrigin(origin: Option<string>): (d: Decision)
    ensures d == Allow <==> Falsy(origin) || origin.value in AllowedOrigins
    ensures d.Reject? ==> d.message == "Origin not allowed by CORS"
  {
    if Falsy(origin) then Allow
    else if Includes(AllowedOrigins, origin.value) then Allow
    else Reject("Origin not allowed by CORS")
  }
}
