/** The sidebar of the gallery: a fixed table of demo pages, each shown in
    red when it is the current route (the first page also for the root
    route `/`) and in black otherwise. */
module PageList {

  datatype PageListItem = PageListItem(title: string, pageURL: string, githubURL: string)

  /** `baseGithubURL`. It ends in `/`, and every `githubURL` appends a path
      that starts with `/` again. */
  const BaseGithubURL: string := "https://github.com/puxiao/react-webgpu-samples/blob/main/src/pages/"

  /** `asideData`. */
  const AsideData: seq<PageListItem> := [
    PageListItem("simple diamond", "/simple-diamond", BaseGithubURL + "/simple-diamond/index.tsx"),
    PageListItem("color interpolation", "/color-interpolation", BaseGithubURL + "/color-interpolation/index.tsx"),
    PageListItem("ndc triangle", "/ndc-triangle", BaseGithubURL + "/ndc-triangle/index.tsx"),
    PageListItem("heart shape", "/heart-shape", BaseGithubURL + "/heart-shape/index.tsx"),
    PageListItem("frag bind group", "/frag-bind-group", BaseGithubURL + "/frag-bind-group/index.tsx"),
    PageListItem("xy-z vertex buffer slot", "/xy-z-vertex-buffer-slot", BaseGithubURL + "/xy-z-vertex-buffer-slot/index.tsx"),
    PageListItem("vertex buffer slot", "/vertex-buffer-slot", BaseGithubURL + "/vertex-buffer-slot/index.tsx"),
    PageListItem("simple triangle", "/simple-triangle", BaseGithubURL + "/simple-triangle/index.tsx")
  ]

  /** `getColor`, with the router's current route as a parameter: red for
      the current page, and for the first page on the root route; black
      otherwise. */
  function GetColor(route: string, item: PageListItem): (c: string)
    ensures c in {"red", "#000"}
    ensures route == item.pageURL ==> c == "red"
    ensures c == "red" ==> route == item.pageURL || route == "/"
  {
    if route == item.pageURL || (item.pageURL == AsideData[0].pageURL && route == "/") then "red" else "#000"
  }

  /** The colours of the list, in table order: `asideData.map(...)`. Each one
      is red or black, an item is red exactly when its page is the route or
      it is the first item and the route is `/`, and no two items are red. */
  function ItemColors(route: string): (colors: seq<string>)
    ensures |colors| == |AsideData|
    ensures forall i :: 0 <= i < |colors| ==> colors[i] in {"red", "#000"}
    ensures forall i :: 0 <= i < |colors| ==>
              (colors[i] == "red" <==> route == AsideData[i].pageURL || (i == 0 && route == "/"))
    ensures forall i, j :: 0 <= i < j < |colors| ==> !(colors[i] == "red" && colors[j] == "red")
  {
    var colors := seq(|AsideData|, i requires 0 <= i < |AsideData| => GetColor(route, AsideData[i]));
    forall i | 0 <= i < |colors|
      ensures colors[i] == "red" <==> route == AsideData[i].pageURL || (i == 0 && route == "/")
    {
      ColorRule(route, i);
    }
    forall i, j | 0 <= i < j < |colors|
      ensures !(colors[i] == "red" && colors[j] == "red")
    {
      ColorRule(route, i);
      ColorRule(route, j);
      DistinctPages(i, j);
      if i != 0 {
        DistinctPages(0, i);
      }
    }
    colors
  }

  /** Every item is either red or black, and an item is red exactly when the
      route is its page, or the route is `/` and the item is the first page. */
  lemma ColorRule(route: string, i: nat)
    requires i < |AsideData|
    ensures GetColor(route, AsideData[i]) in {"red", "#000"}
    ensures GetColor(route, AsideData[i]) == "red" <==>
              route == AsideData[i].pageURL || (i == 0 && route == "/")
  {
    if i != 0 && AsideData[i].pageURL == AsideData[0].pageURL {
      DistinctPages(0, i);
    }
  }

  /** The table's pages are pairwise distinct and none of them is `/`. */
  lemma DistinctPages(i: nat, j: nat)
    requires i < j < |AsideData|
    ensures AsideData[i].pageURL != AsideData[j].pageURL
    ensures AsideData[i].pageURL != "/" && AsideData[j].pageURL != "/"
  {
    var urls := [AsideData[0].pageURL, AsideData[1].pageURL, AsideData[2].pageURL, AsideData[3].pageURL,
                 AsideData[4].pageURL, AsideData[5].pageURL, AsideData[6].pageURL, AsideData[7].pageURL];
    assert forall k :: 0 <= k < 8 ==> |urls[k]| > 1 && urls[k][0] == '/';
    assert |urls[0]| == 15 && |urls[1]| == 20 && |urls[2]| == 13 && |urls[3]| == 12;
    assert |urls[4]| == 16 && |urls[5]| == 24 && |urls[6]| == 19 && |urls[7]| == 16;
    assert urls[4][1] == 'f' && urls[7][1] == 's';
  }

  /** For any route at most one item is red; for the root route and for the
      route of a listed page, exactly the expected one is. */
  lemma OneHighlight(route: string, i: nat, j: nat)
    requires i < j < |AsideData|
    ensures !(ItemColors(route)[i] == "red" && ItemColors(route)[j] == "red")
    ensures route == "/" ==> ItemColors(route)[0] == "red"
    ensures route == AsideData[i].pageURL ==> ItemColors(route)[i] == "red" && ItemColors(route)[j] == "#000"
    ensures route == AsideData[j].pageURL ==> ItemColors(route)[j] == "red" && ItemColors(route)[i] == "#000"
  {
    ColorRule(route, i);
    ColorRule(route, j);
    DistinctPages(i, j);
    if i != 0 {
      DistinctPages(0, i);
    }
    ColorRule(route, 0);
  }

  /** Every source link is the base URL, the page's route and `/index.tsx`. */
  lemma GithubLinks(i: nat)
    requires i < |AsideData|
    ensures AsideData[i].githubURL == BaseGithubURL + AsideData[i].pageURL + "/index.tsx"
  {
    if i < 4 {
      LinksOfFirstPages(i);
    } else {
      LinksOfLastPages(i);
    }
  }

  lemma LinksOfFirstPages(i: nat)
    requires i < 4
    ensures AsideData[i].githubURL == BaseGithubURL + AsideData[i].pageURL + "/index.tsx"
  {
    var path := AsideData[i].pageURL + "/index.tsx";
    assert BaseGithubURL + AsideData[i].pageURL + "/index.tsx" == BaseGithubURL + path;
    if i == 0 {
      assert path == "/simple-diamond/index.tsx";
    } else if i == 1 {
      assert path == "/color-interpolation/index.tsx";
    } else if i == 2 {
      assert path == "/ndc-triangle/index.tsx";
    } else {
      assert path == "/heart-shape/index.tsx";
    }
  }

  lemma LinksOfLastPages(i: nat)
    requires 4 <= i < |AsideData|
    ensures AsideData[i].githubURL == BaseGithubURL + AsideData[i].pageURL + "/index.tsx"
  {
    var path := AsideData[i].pageURL + "/index.tsx";
    assert BaseGithubURL + AsideData[i].pageURL + "/index.tsx" == BaseGithubURL + path;
    if i == 4 {
      assert path == "/frag-bind-group/index.tsx";
    } else if i == 5 {
      assert path == "/xy-z-vertex-buffer-slot/index.tsx";
    } else if i == 6 {
      assert path == "/vertex-buffer-slot/index.tsx";
    } else {
      assert path == "/simple-triangle/index.tsx";
    }
  }
}
