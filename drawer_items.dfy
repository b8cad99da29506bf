/** `DrawerElements`: the entries of the navigation drawer, in display order. */
module DrawerItems {

  /** The icon drawn beside each entry. */
  datatype DrawerIcon =
    | BusinessOutlined
    | PersonPinCircleOutlined
    | GroupOutlined
    | HomeWorkOutlined
    | LocalShippingOutlined
    | ConstructionOutlined
    | EventOutlined
    | DescriptionOutlined
    | Sensors

  datatype DrawerItem = DrawerItem(index: int, path: string, icon: DrawerIcon, name: string)

  const DrawerElements: seq<DrawerItem> := [
    DrawerItem(1, "local-units", BusinessOutlined, "Local Units"),
    DrawerItem(2, "departments", PersonPinCircleOutlined, "Departments"),
    DrawerItem(3, "hr", GroupOutlined, "HR"),
    DrawerItem(4, "properties", HomeWorkOutlined, "Properties"),
    DrawerItem(5, "vehicles", LocalShippingOutlined, "Vehicles"),
    DrawerItem(6, "equipments", ConstructionOutlined, "Equipments"),
    DrawerItem(7, "timetables", EventOutlined, "Timetables"),
    DrawerItem(8, "documents", DescriptionOutlined, "Documents"),
    DrawerItem(9, "pods", Sensors, "Pods")
  ]

  /** The child routes declared under `/app/companies/:companyId`, apart from the catch-all. */
  const CompanyChildRoutes: seq<string> := [
    "local-units", "departments", "hr", "properties", "vehicles",
    "equipments", "timetables", "documents", "pods"
  ]

  /** Nine entries, numbered 1 to 9 in order. */
  lemma DrawerElementsNumbered()
    ensures |DrawerElements| == 9
    ensures forall i :: 0 <= i < |DrawerElements| ==> DrawerElements[i].index == i + 1
  {
  }

  /** No two entries share a path or a displayed name. */
  lemma DrawerElementsDistinct()
    ensures forall i, j :: 0 <= i < j < |DrawerElements| ==>
      DrawerElements[i].path != DrawerElements[j].path && DrawerElements[i].name != DrawerElements[j].name
  {
  }

  /** Each entry's path is a single, routed path segment. */
  lemma DrawerPathsRouted()
    ensures forall i :: 0 <= i < |DrawerElements| ==>
      DrawerElements[i].path in CompanyChildRoutes && '/' !in DrawerElements[i].path
  {
  }
}
