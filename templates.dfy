/** The two text templates the generator renders: a TLS-terminating nginx
    virtual host that forwards to a backend, and an acme-redirect
    certificate request. Both are literal pieces around the host names. */
module Templates {

  /** `part` occurs in `s` starting at offset `i`. */
  predicate OccursAt(s: string, part: string, i: nat) {
    i + |part| <= |s| && s[i..i + |part|] == part
  }

  /** `part` occurs somewhere inside `s`. */
  ghost predicate Contains(s: string, part: string) {
    exists i: nat :: OccursAt(s, part, i)
  }

  // ---------------------------------------------------------------- nginx

  /** The `server_name` directive, naming the public host. */
  function ServerNameLine(from: string): string {
    "server_name " + from + ";"
  }

  /** Where acme-redirect keeps the certificate material of `from`. */
  function CertPath(from: string, leaf: string): string {
    "/var/lib/acme-redirect/live/" + from + "/" + leaf
  }

  /** The forwarding directive, the only place the backend address goes. */
  function ProxyPassLine(to: string): string {
    "proxy_pass http://" + to + "/;"
  }

  const ListenBlock: string :=
    "server {\n        listen 443 ssl http2;\n        listen [::]:443 ssl http2;\n\n        "

  const TlsBlock: string :=
    "        ssl_session_timeout 1d;\n"
    + "        ssl_session_cache shared:MozSSL:10m;  # about 40000 sessions\n"
    + "        ssl_session_tickets off;\n"
    + "        \n"
    + "        ssl_protocols TLSv1.2 TLSv1.3;\n"
    + "        ssl_ciphers ECDHE-ECDSA-AES128-GCM-SHA256:ECDHE-RSA-AES128-GCM-SHA256:ECDHE-ECDSA-AES256-GCM-SHA384:ECDHE-RSA-AES256-GCM-SHA384:ECDHE-ECDSA-CHACHA20-POLY1305:ECDHE-RSA-CHACHA20-POLY1305:DHE-RSA-AES128-GCM-SHA256:DHE-RSA-AES256-GCM-SHA384;\n"
    + "        ssl_prefer_server_ciphers off;\n"
    + "\n"
    + "        add_header Strict-Transport-Security \"max-age=63072000\" always;\n"
    + "\n"
    + "        ssl_stapling on;\n"
    + "        ssl_stapling_verify on;\n"

  const LocationBlock: string :=
    "        resolver 127.0.0.1;\n"
    + "\n"
    + "\n"
    + "        location / {\n"
    + "                proxy_set_header Host $http_host;\n"
    + "                proxy_set_header X-Real-IP $remote_addr;\n"
    + "                proxy_set_header X-Forwarded-For $proxy_add_x_forwarded_for;\n"
    + "                proxy_set_header X-Scheme $scheme;\n"
    + "                proxy_http_version 1.1;\n"
    + "                proxy_set_header Upgrade $http_upgrade;\n"
    + "                proxy_set_header Connection \"Upgrade\";\n"
    + "                client_max_body_size 0;\n"
    + "\n"
    + "                "

  /** What follows the proxy_pass directive: the closing braces. */
  const ProxyTail: string := "\n        }\n}"

  /** Everything of the virtual host that precedes the proxy_pass directive,
      written as a right-nested concatenation so that each piece is one
      step away from the whole. */
  function ProxyHead(from: string): string {
    ListenBlock
    + (ServerNameLine(from)
    + ("\n\n        ssl_certificate "
    + (CertPath(from, "fullchain")
    + (";\n        ssl_certificate_key "
    + (CertPath(from, "privkey")
    + (";\n" + TlsBlock + "        ssl_trusted_certificate "
    + (CertPath(from, "chain")
    + (";\n" + LocationBlock))))))))
  }

  /** The virtual host for public name `from`, forwarding to backend `to`. */
  function NginxProxyBuild(from: string, to: string): string {
    ProxyHead(from) + ProxyPassLine(to) + ProxyTail
  }

  lemma ContainsStart(part: string, post: string)
    ensures Contains(part + post, part)
  {
    assert OccursAt(part + post, part, 0);
  }

  lemma ContainsEnd(pre: string, part: string)
    ensures Contains(pre + part, part)
  {
    assert OccursAt(pre + part, part, |pre|);
  }

  lemma ContainsAfter(pre: string, s: string, part: string)
    requires Contains(s, part)
    ensures Contains(pre + s, part)
  {
    var i: nat :| OccursAt(s, part, i);
    assert (pre + s)[|pre| + i..|pre| + i + |part|] == s[i..i + |part|];
    assert OccursAt(pre + s, part, |pre| + i);
  }

  lemma ContainsBefore(s: string, post: string, part: string)
    requires Contains(s, part)
    ensures Contains(s + post, part)
  {
    var i: nat :| OccursAt(s, part, i);
    assert (s + post)[i..i + |part|] == s[i..i + |part|];
    assert OccursAt(s + post, part, i);
  }

  /** The three pieces of `x + y + z` are where one expects them. */
  lemma Pieces(x: string, y: string, z: string)
    ensures (x + y + z)[..|x|] == x
    ensures (x + y + z)[|x|..|x| + |y|] == y
    ensures (x + y + z)[|x| + |y|..] == z
  {
  }

  /** In a right-nested concatenation of nine pieces, the second, fourth,
      sixth and eighth occur. Stated over arbitrary strings so that the proof
      never looks inside the literal pieces of the template. */
  lemma NinePieces(l: string, sn: string, a: string, fc: string, b: string,
                                      pk: string, c: string, ch: string, d: string)
    ensures var s := l + (sn + (a + (fc + (b + (pk + (c + (ch + d)))))));
            Contains(s, sn) && Contains(s, fc) && Contains(s, pk) && Contains(s, ch)
  {
    var s7 := ch + d;
    var s6 := c + s7;
    var s5 := pk + s6;
    var s4 := b + s5;
    var s3 := fc + s4;
    var s2 := a + s3;
    var s1 := sn + s2;
    ContainsStart(ch, d);
    ContainsAfter(c, s7, ch);
    ContainsAfter(pk, s6, ch);
    ContainsStart(pk, s6);
    ContainsAfter(b, s5, ch);
    ContainsAfter(b, s5, pk);
    ContainsAfter(fc, s4, ch);
    ContainsAfter(fc, s4, pk);
    ContainsStart(fc, s4);
    ContainsAfter(a, s3, ch);
    ContainsAfter(a, s3, pk);
    ContainsAfter(a, s3, fc);
    ContainsAfter(sn, s2, ch);
    ContainsAfter(sn, s2, pk);
    ContainsAfter(sn, s2, fc);
    ContainsStart(sn, s2);
    ContainsAfter(l, s1, ch);
    ContainsAfter(l, s1, pk);
    ContainsAfter(l, s1, fc);
    ContainsAfter(l, s1, sn);
  }

  /** The server name and the three certificate paths are rendered, and all
      of them lie in the part of the text that precedes the target. */
  lemma HeadNamesHost(from: string)
    ensures Contains(ProxyHead(from), ServerNameLine(from))
    ensures Contains(ProxyHead(from), CertPath(from, "fullchain"))
    ensures Contains(ProxyHead(from), CertPath(from, "privkey"))
    ensures Contains(ProxyHead(from), CertPath(from, "chain"))
  {
    NinePieces(ListenBlock, ServerNameLine(from), "\n\n        ssl_certificate ",
               CertPath(from, "fullchain"), ";\n        ssl_certificate_key ",
               CertPath(from, "privkey"), ";\n" + TlsBlock + "        ssl_trusted_certificate ",
               CertPath(from, "chain"), ";\n" + LocationBlock);
  }

  /** The rendered host names the server and its certificates, and its
      target. */
  lemma NginxNamesHost(from: string, to: string)
    ensures Contains(NginxProxyBuild(from, to), ServerNameLine(from))
    ensures Contains(NginxProxyBuild(from, to), CertPath(from, "fullchain"))
    ensures Contains(NginxProxyBuild(from, to), CertPath(from, "privkey"))
    ensures Contains(NginxProxyBuild(from, to), CertPath(from, "chain"))
    ensures Contains(NginxProxyBuild(from, to), ProxyPassLine(to))
  {
    var h := ProxyHead(from);
    HeadNamesHost(from);
    forall part | part in [ServerNameLine(from), CertPath(from, "fullchain"),
                           CertPath(from, "privkey"), CertPath(from, "chain")]
      ensures Contains(NginxProxyBuild(from, to), part)
    {
      ContainsBefore(h, ProxyPassLine(to), part);
      ContainsBefore(h + ProxyPassLine(to), ProxyTail, part);
    }
    ContainsEnd(h, ProxyPassLine(to));
    ContainsBefore(h + ProxyPassLine(to), ProxyTail, ProxyPassLine(to));
  }

  /** The backend address only enters the proxy_pass directive: for the same
      public name, two renderings agree on everything before that directive
      and on everything after it, and the directive in between carries the
      target. */
  lemma TargetOnlyInProxyPass(from: string, to1: string, to2: string)
    ensures var a, b, h := NginxProxyBuild(from, to1), NginxProxyBuild(from, to2), |ProxyHead(from)|;
            && |a| == h + |ProxyPassLine(to1)| + |ProxyTail|
            && |b| == h + |ProxyPassLine(to2)| + |ProxyTail|
            && a[..h] == b[..h] == ProxyHead(from)
            && a[h..h + |ProxyPassLine(to1)|] == ProxyPassLine(to1)
            && b[h..h + |ProxyPassLine(to2)|] == ProxyPassLine(to2)
            && a[|a| - |ProxyTail|..] == b[|b| - |ProxyTail|..] == ProxyTail
  {
    Pieces(ProxyHead(from), ProxyPassLine(to1), ProxyTail);
    Pieces(ProxyHead(from), ProxyPassLine(to2), ProxyTail);
  }

  /** Two renderings for the same public name are equal exactly when the
      targets are. */
  lemma TargetDeterminesHost(from: string, to1: string, to2: string)
    ensures NginxProxyBuild(from, to1) == NginxProxyBuild(from, to2) <==> to1 == to2
  {
    if NginxProxyBuild(from, to1) == NginxProxyBuild(from, to2) {
      var a, h := NginxProxyBuild(from, to1), |ProxyHead(from)|;
      TargetOnlyInProxyPass(from, to1, to2);
      var p := |"proxy_pass http://"|;
      assert to1 == ProxyPassLine(to1)[p..p + |to1|];
      assert to2 == ProxyPassLine(to2)[p..p + |to2|];
      assert |to1| == |to2|;
      assert ProxyPassLine(to1) == a[h..h + |ProxyPassLine(to1)|] == ProxyPassLine(to2);
    }
  }

  // ---------------------------------------------------------- acme-redirect

  /** The request identifier line. */
  function NameLine(namespace: string): string {
    "name = \"" + namespace + "\""
  }

  /** The list of requested DNS names, holding exactly `namespace`. */
  function DnsNames(namespace: string): string {
    "dns_names = [\n    \"" + namespace + "\",\n]"
  }

  /** The post-issuance action: reload nginx, and nothing else. */
  const ExecBlock: string :=
    "exec = [\n    \"systemctl reload nginx\",\n]\n"

  const CertHeader: string :=
    "[cert]\n"

  /** The certificate request for `namespace`. */
  function AcmeRedirectConfigBuild(namespace: string): string {
    CertHeader + NameLine(namespace) + "\n" + DnsNames(namespace) + "\n" + ExecBlock
  }

  /** The request names `namespace` as its identifier and as its single DNS
      name, opens with the `[cert]` table and ends with the exec list. */
  lemma RequestNamesNamespace(namespace: string)
    ensures var r := AcmeRedirectConfigBuild(namespace);
            && Contains(r, NameLine(namespace))
            && Contains(r, DnsNames(namespace))
            && r[..|CertHeader|] == CertHeader
            && r[|r| - |ExecBlock|..] == ExecBlock
  {
    var r := AcmeRedirectConfigBuild(namespace);
    var nl, dn := NameLine(namespace), DnsNames(namespace);
    var rest := "\n" + dn + "\n" + ExecBlock;
    assert r == CertHeader + (nl + rest);
    ContainsStart(nl, rest);
    ContainsAfter(CertHeader, nl + rest, nl);
    assert r == (CertHeader + nl + "\n") + (dn + ("\n" + ExecBlock));
    ContainsStart(dn, "\n" + ExecBlock);
    ContainsAfter(CertHeader + nl + "\n", dn + ("\n" + ExecBlock), dn);
    Pieces(CertHeader, nl + "\n" + dn + "\n", ExecBlock);
  }

  /** Distinct namespaces give distinct requests. */
  lemma RequestDeterminesNamespace(ns1: string, ns2: string)
    ensures AcmeRedirectConfigBuild(ns1) == AcmeRedirectConfigBuild(ns2) <==> ns1 == ns2
  {
    if AcmeRedirectConfigBuild(ns1) == AcmeRedirectConfigBuild(ns2) {
      var r := AcmeRedirectConfigBuild(ns1);
      var k := |CertHeader + "name = \""|;
      assert |ns1| == |ns2|;
      assert ns1 == r[k..k + |ns1|];
      assert ns2 == AcmeRedirectConfigBuild(ns2)[k..k + |ns2|];
    }
  }
}
